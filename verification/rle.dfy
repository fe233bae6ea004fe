/** The 565 run-length codec: write_rle and parse_rle over byte strings. */
module Rle {
  import opened Words

  /** AssertionFailed is the source's `assert`; UnboundCount is its use of a variable no iteration has set. */
  datatype Result<+T> = Ok(value: T) | AssertionFailed | UnboundCount

  datatype Option<T> = None | Some(value: T)

  /** A stored pair of 16-bit fields. */
  datatype Run = Run(count: u16, color: u16)

  datatype Pixel = Pixel(r: byte, g: byte, b: byte)

  const MAX_COUNT := 0xFFFF

  // ----- colours -----

  /** ((r >> 3) << 11) | ((g >> 2) << 5) | (b >> 3) */
  function Pack(p: Pixel): nat {
    Or(Or(p.r / 8 * 0x800, p.g / 4 * 0x20), p.b / 8)
  }

  lemma PackFields(p: Pixel)
    ensures Pack(p) == p.r / 8 * 0x800 + p.g / 4 * 0x20 + p.b / 8 < 0x1_0000
  {
    assert Pow2(5) == 0x20 && Pow2(11) == 0x800;
    OrDisjoint(p.r / 8, p.g / 4 * 0x20, 11);
    OrDisjoint(p.r / 8 * 0x40 + p.g / 4, p.b / 8, 5);
  }

  function Color(p: Pixel): u16 {
    PackFields(p);
    Pack(p)
  }

  /** x & (2^k - 1) */
  function LowBits(x: nat, k: nat): (f: nat)
    ensures f == x % Pow2(k)
  {
    AndMask(x, k);
    And(x, Pow2(k) - 1)
  }

  /** The three lambdas of parse_rle: shift down, mask, shift up. */
  function Unpack(c: u16): Pixel {
    assert Pow2(5) == 0x20 && Pow2(6) == 0x40;
    Pixel(LowBits(c / 0x800, 5) * 8, LowBits(c / 0x20, 6) * 4, LowBits(c, 5) * 8)
  }

  /** What a pixel keeps of its three components. */
  function Quantised(p: Pixel): Pixel {
    Pixel(p.r - p.r % 8, p.g - p.g % 4, p.b - p.b % 8)
  }

  lemma FieldsBack(a: nat, b: nat, d: nat)
    requires a < 0x20 && b < 0x40 && d < 0x20
    ensures var c := a * 0x800 + b * 0x20 + d;
            c / 0x800 % 0x20 == a && c / 0x20 % 0x40 == b && c % 0x20 == d
  {}

  lemma UnpackColor(p: Pixel)
    ensures Unpack(Color(p)) == Quantised(p)
  {
    PackFields(p);
    var c: nat := Color(p);
    assert Pow2(5) == 0x20 && Pow2(6) == 0x40;
    hide Pack, LowBits, Pow2;
    FieldsBack(p.r / 8, p.g / 4, p.b / 8);
  }

  // ----- the two files as sequences -----

  function Pixels(raw: seq<byte>): (ps: seq<Pixel>)
    ensures |ps| == |raw| / 3
  {
    seq(|raw| / 3, i requires 0 <= i < |raw| / 3 => Pixel(raw[3 * i], raw[3 * i + 1], raw[3 * i + 2]))
  }

  function Colors(ps: seq<Pixel>): (cs: seq<u16>)
    ensures |cs| == |ps|
  {
    seq(|ps|, i requires 0 <= i < |ps| => Color(ps[i]))
  }

  function UnpackAll(cs: seq<u16>): (ps: seq<Pixel>)
    ensures |ps| == |cs|
  {
    seq(|cs|, i requires 0 <= i < |cs| => Unpack(cs[i]))
  }

  function QuantisedAll(ps: seq<Pixel>): (qs: seq<Pixel>)
    ensures |qs| == |ps|
  {
    seq(|ps|, i requires 0 <= i < |ps| => Quantised(ps[i]))
  }

  function RawBytes(ps: seq<Pixel>): (raw: seq<byte>)
    ensures |raw| == 3 * |ps|
  {
    if ps == [] then [] else RawBytes(Most(ps)) + [Last(ps).r, Last(ps).g, Last(ps).b]
  }

  function Record(r: Run): (s: seq<byte>)
    ensures |s| == 4
  {
    Le16(r.count) + Le16(r.color)
  }

  function Encode(runs: seq<Run>): (s: seq<byte>)
    ensures |s| == 4 * |runs|
  {
    if runs == [] then [] else Encode(Most(runs)) + Record(Last(runs))
  }

  function Decode(s: seq<byte>): (runs: seq<Run>)
    requires |s| % 4 == 0
    ensures |runs| * 4 == |s|
  {
    if s == [] then []
    else
      var n := |s| - 4;
      Decode(s[..n]) + [Run(FromLe16(s[n..n + 2]), FromLe16(s[n + 2..]))]
  }

  lemma DecodeSnoc(s: seq<byte>, t: seq<byte>)
    requires |s| % 4 == 0 && |t| == 4
    ensures Decode(s + t) == Decode(s) + [Run(FromLe16(t[..2]), FromLe16(t[2..]))]
  {
    var n := |s|;
    assert (s + t)[..n] == s && (s + t)[n..n + 2] == t[..2] && (s + t)[n + 2..] == t[2..];
  }

  lemma RecordBack(r: Run)
    ensures FromLe16(Record(r)[..2]) == r.count && FromLe16(Record(r)[2..]) == r.color
  {
    assert Record(r)[..2] == Le16(r.count) && Record(r)[2..] == Le16(r.color);
    Le16RoundTrip(r.count);
    Le16RoundTrip(r.color);
  }

  lemma DecodeRecord(runs: seq<Run>, r: Run)
    requires Decode(Encode(runs)) == runs
    ensures Decode(Encode(runs) + Record(r)) == runs + [r]
  {
    hide Decode, Encode, Record, FromLe16;
    RecordBack(r);
    DecodeSnoc(Encode(runs), Record(r));
  }

  lemma {:induction false} DecodeEncode(runs: seq<Run>)
    ensures Decode(Encode(runs)) == runs
  {
    if runs == [] {
      assert Encode(runs) == [];
    } else {
      MostLast(runs);
      hide Decode, Record, Most, Last;
      DecodeEncode(Most(runs));
      DecodeRecord(Most(runs), Last(runs));
    }
  }

  lemma MostLast<T>(s: seq<T>)
    requires s != []
    ensures Most(s) + [Last(s)] == s && |Most(s)| == |s| - 1
  {}

  /** n copies of c */
  function Repeat(c: u16, n: nat): (s: seq<u16>)
    ensures |s| == n
    ensures forall i :: 0 <= i < n ==> s[i] == c
  {
    seq(n, _ => c)
  }

  function Expand(runs: seq<Run>): seq<u16> {
    if runs == [] then [] else Expand(Most(runs)) + Repeat(Last(runs).color, Last(runs).count)
  }

  function Most<T>(s: seq<T>): seq<T>
    requires s != []
  {
    s[..|s| - 1]
  }

  function Last<T>(s: seq<T>): T
    requires s != []
  {
    s[|s| - 1]
  }

  // ----- the greedy runs -----

  /** The run list after one more pixel: the last run grows while its colour and its 16-bit count allow. */
  function Extend(g: seq<Run>, c: u16): (runs: seq<Run>)
    ensures runs != [] && Last(runs).color == c
  {
    if g != [] && c == Last(g).color && Last(g).count != MAX_COUNT
    then Most(g) + [Run(Last(g).count + 1, c)]
    else g + [Run(1, c)]
  }

  function Greedy(cs: seq<u16>): (runs: seq<Run>)
    ensures cs != [] <==> runs != []
    ensures forall r :: r in runs ==> 1 <= r.count
    ensures cs != [] ==> Last(runs).color == Last(cs)
    decreases |cs|
  {
    if cs == [] then [] else Extend(Greedy(Most(cs)), Last(cs))
  }

  lemma ExpandSnoc(runs: seq<Run>, r: Run)
    ensures Expand(runs + [r]) == Expand(runs) + Repeat(r.color, r.count)
  {
    assert Most(runs + [r]) == runs;
  }

  lemma GreedySnoc(cs: seq<u16>, c: u16)
    ensures Greedy(cs + [c]) == Extend(Greedy(cs), c)
  {
    assert Most(cs + [c]) == cs;
  }

  lemma ExpandLast(runs: seq<Run>, c: u16)
    requires runs != [] && Last(runs).color == c && Last(runs).count < MAX_COUNT
    ensures Expand(Most(runs) + [Run(Last(runs).count + 1, c)]) == Expand(runs) + [c]
  {
    var n := Last(runs).count;
    assert Repeat(c, n + 1) == Repeat(c, n) + [c];
    ExpandSnoc(Most(runs), Run(n + 1, c));
  }

  lemma ExpandExtend(g: seq<Run>, c: u16)
    ensures Expand(Extend(g, c)) == Expand(g) + [c]
  {
    assert Repeat(c, 1) == [c];
    ExpandSnoc(g, Run(1, c));
    if g != [] && c == Last(g).color && Last(g).count != MAX_COUNT {
      ExpandLast(g, c);
    }
    hide Expand;
  }

  lemma GreedyStep(cs: seq<u16>)
    requires cs != []
    ensures Greedy(cs) == Extend(Greedy(Most(cs)), Last(cs))
    ensures |cs| == 1 ==> Greedy(Most(cs)) == []
    ensures |cs| > 1 ==> Greedy(Most(cs)) != [] && Last(Greedy(Most(cs))).color == Last(Most(cs))
  {
    hide Extend;
  }

  lemma {:induction false} ExpandGreedy(cs: seq<u16>)
    ensures Expand(Greedy(cs)) == cs
    decreases |cs|
  {
    if cs == [] {
      assert Expand(Greedy(cs)) == [];
    } else {
      MostLast(cs);
      GreedyStep(cs);
      hide Expand, Greedy, Extend, Most, Last;
      ExpandGreedy(Most(cs));
      ExpandExtend(Greedy(Most(cs)), Last(cs));
    }
  }

  /** runs without its trailing empty ones */
  function Trim(runs: seq<Run>): seq<Run> {
    if runs != [] && Last(runs).count == 0 then Trim(Most(runs)) else runs
  }

  lemma {:induction false} TrimKeeps(runs: seq<Run>)
    ensures Expand(Trim(runs)) == Expand(runs)
    ensures |Trim(runs)| <= |runs|
    ensures Trim(runs) != [] ==> Last(Trim(runs)).count > 0
    decreases |runs|
  {
    if runs != [] && Last(runs).count == 0 {
      TrimKeeps(Most(runs));
    }
  }

  /** Taking the last colour off shortens the last run, or leaves the runs in front of it. */
  lemma TakeOff(cs: seq<u16>, runs: seq<Run>)
    requires cs != [] && Expand(runs) == cs && Last(runs).count > 0
    ensures Last(runs).color == Last(cs)
    ensures Last(runs).count == 1 ==> Expand(Most(runs)) == Most(cs)
    ensures Last(runs).count > 1 ==>
              Expand(Most(runs) + [Run(Last(runs).count - 1, Last(runs).color)]) == Most(cs)
  {
    var Run(n, c) := Last(runs);
    assert cs == Expand(Most(runs)) + Repeat(c, n);
    assert Repeat(c, n) == Repeat(c, n - 1) + [c];
    ExpandSnoc(Most(runs), Run(n - 1, c));
    hide Expand;
  }

  /** The greedy list is the shortest, and among the shortest it has the smallest last count. */
  lemma {:induction false} GreedyLeast(cs: seq<u16>, runs: seq<Run>)
    requires cs != [] && Expand(runs) == cs && Last(runs).count > 0
    ensures |Greedy(cs)| <= |runs|
    ensures |Greedy(cs)| == |runs| ==> Last(Greedy(cs)).count <= Last(runs).count
    decreases |cs|
  {
    var Run(n, c) := Last(runs);
    TakeOff(cs, runs);
    GreedyStep(cs);
    hide Expand, Greedy, Trim;
    if n >= 2 {
      var shorter := Most(runs) + [Run(n - 1, c)];
      assert Last(shorter) == Run(n - 1, c) && |shorter| == |runs|;
      GreedyLeast(Most(cs), shorter);
    } else if |cs| > 1 {
      TrimKeeps(Most(runs));
      GreedyLeast(Most(cs), Trim(Most(runs)));
    }
  }

  /** No list of runs with 16-bit counts that decodes to the same colours is shorter. */
  lemma GreedyShortest(cs: seq<u16>, runs: seq<Run>)
    requires Expand(runs) == cs
    ensures |Greedy(cs)| <= |runs|
  {
    if cs != [] {
      TrimKeeps(runs);
      GreedyLeast(cs, Trim(runs));
    }
  }

  // ----- the two loops -----

  /** The runs of a raw file. */
  function RunsOf(raw: seq<byte>): (runs: seq<Run>)
    ensures forall r :: r in runs ==> 1 <= r.count
  {
    Greedy(Colors(Pixels(raw)))
  }

  lemma NextColor(raw: seq<byte>, p: nat)
    requires p % 3 == 0 && p + 3 <= |raw|
    ensures Colors(Pixels(raw[..p + 3])) == Colors(Pixels(raw[..p])) + [Color(Pixel(raw[p], raw[p + 1], raw[p + 2]))]
  {
    hide Color;
  }

  lemma NextPixel(raw: seq<byte>, p: nat)
    requires p % 3 == 0 && p + 3 <= |raw|
    ensures RunsOf(raw[..p + 3]) == Extend(RunsOf(raw[..p]), Color(Pixel(raw[p], raw[p + 1], raw[p + 2])))
  {
    hide Color, Greedy, Extend;
    NextColor(raw, p);
    GreedySnoc(Colors(Pixels(raw[..p])), Color(Pixel(raw[p], raw[p + 1], raw[p + 2])));
  }

  /** What write_rle leaves: the encoded runs and the number of pixels, unless the file ends inside a pixel or
      is empty. */
  function Written(raw: seq<byte>): Result<(seq<byte>, int)> {
    if |raw| % 3 != 0 then AssertionFailed
    else if raw == [] then UnboundCount
    else Ok((Encode(RunsOf(raw)), |raw| / 3))
  }

  /** The writer behind p bytes: the closed runs are in the file, and the last one is still open. */
  ghost predicate Scanned(raw: seq<byte>, p: nat, rle: seq<byte>, written: seq<Run>, last: Option<u16>, count: u16)
    requires p <= |raw|
  {
    && rle == Encode(written)
    && (last == None ==> p == 0 && RunsOf(raw[..p]) == [] == written)
    && (last != None ==> p > 0 && RunsOf(raw[..p]) == written + [Run(count, last.value)])
  }

  method WriteRle(raw: seq<byte>) returns (result: Result<(seq<byte>, int)>)
    ensures result == Written(raw)
  {
    var rle: seq<byte> := [];
    var last: Option<u16> := None;
    var count: u16 := 0;
    var total, p := 0, 0;
    ghost var written: seq<Run> := [];
    NothingScanned(raw, count);
    assert MAX_COUNT == 0xFFFF;
    hide *;
    while p < |raw|
      invariant p == 3 * total <= |raw|
      invariant Scanned(raw, p, rle, written, last, count)
    {
      if p + 3 > |raw| {
        PartialPixel(raw, total);
        return AssertionFailed;
      }
      var color := Color(Pixel(raw[p], raw[p + 1], raw[p + 2]));
      ScanStep(raw, total, p, rle, written, last, count);
      total := total + 1;
      p := p + 3;
      if last == None {
      } else if color == last.value && count != MAX_COUNT {
        count := count + 1;
        continue;
      } else {
        rle := rle + Record(Run(count, last.value));
        written := written + [Run(count, last.value)];
      }
      last := Some(color);
      count := 1;
    }
    ScanEnd(raw, total, rle, written, last, count);
    if last == None {
      return UnboundCount;
    }
    if count > 0 {
      rle := rle + Record(Run(count, last.value));
    }
    return Ok((rle, total));
  }

  lemma PartialPixel(raw: seq<byte>, total: nat)
    requires 3 * total < |raw| < 3 * total + 3
    ensures Written(raw) == AssertionFailed
  {}

  lemma NothingScanned(raw: seq<byte>, count: u16)
    ensures Scanned(raw, 0, [], [], None, count)
  {
    assert raw[..0] == [];
  }

  /** One more pixel: it opens the first run, lengthens the open one, or closes that and opens another. */
  lemma ScanStep(raw: seq<byte>, total: nat, p: nat, rle: seq<byte>, written: seq<Run>, last: Option<u16>, count: u16)
    requires p == 3 * total && p + 3 <= |raw| && Scanned(raw, p, rle, written, last, count)
    ensures var color := Color(Pixel(raw[p], raw[p + 1], raw[p + 2]));
            if last == None then Scanned(raw, p + 3, rle, written, Some(color), 1)
            else if color == last.value && count != MAX_COUNT then Scanned(raw, p + 3, rle, written, last, count + 1)
            else var run := Run(count, last.value);
                 Scanned(raw, p + 3, rle + Record(run), written + [run], Some(color), 1)
  {
    hide Color, RunsOf, Encode, Record, Extend, Greedy;
    NextPixel(raw, p);
    ExtendCases(written, count, last, Color(Pixel(raw[p], raw[p + 1], raw[p + 2])));
    if last != None {
      EncodeSnoc(written, Run(count, last.value));
    }
  }

  lemma ScanEnd(raw: seq<byte>, total: nat, rle: seq<byte>, written: seq<Run>, last: Option<u16>, count: u16)
    requires |raw| == 3 * total && Scanned(raw, |raw|, rle, written, last, count)
    ensures Written(raw) == if last == None then UnboundCount else Ok((rle + Record(Run(count, last.value)), total))
    ensures last != None ==> count > 0
  {
    assert raw[..|raw|] == raw;
    if last != None {
      assert Run(count, last.value) in RunsOf(raw);
      EncodeSnoc(written, Run(count, last.value));
    }
    hide Encode, RunsOf, Record;
  }

  lemma ExtendCases(written: seq<Run>, count: u16, last: Option<u16>, c: u16)
    ensures last == None ==> Extend([], c) == [Run(1, c)]
    ensures last.Some? && last.value == c && count != MAX_COUNT ==>
              Extend(written + [Run(count, last.value)], c) == written + [Run(count + 1, c)]
    ensures last.Some? && (last.value != c || count == MAX_COUNT) ==>
              Extend(written + [Run(count, last.value)], c) == written + [Run(count, last.value)] + [Run(1, c)]
  {
    if last.Some? {
      var g := written + [Run(count, last.value)];
      assert Most(g) == written && Last(g) == Run(count, last.value);
    }
  }

  lemma EncodeSnoc(runs: seq<Run>, r: Run)
    ensures Encode(runs + [r]) == Encode(runs) + Record(r)
  {
    assert Most(runs + [r]) == runs;
  }

  /** The raw file of a list of colours. */
  function Image(cs: seq<u16>): seq<byte> {
    RawBytes(UnpackAll(cs))
  }

  lemma ImageSnoc(cs: seq<u16>, c: u16)
    ensures Image(cs + [c]) == Image(cs) + [Unpack(c).r, Unpack(c).g, Unpack(c).b]
  {
    hide Unpack;
    assert UnpackAll(cs + [c]) == UnpackAll(cs) + [Unpack(c)];
    assert Most(UnpackAll(cs) + [Unpack(c)]) == UnpackAll(cs);
  }

  lemma RepeatSnoc(cs: seq<u16>, c: u16, n: nat)
    ensures cs + Repeat(c, 0) == cs
    ensures cs + Repeat(c, n + 1) == (cs + Repeat(c, n)) + [c]
  {}

  /** What parse_rle leaves: the image of the decoded colours and their number, unless the file ends inside a
      record. */
  function Parsed(rle: seq<byte>): Result<(seq<byte>, int)> {
    if |rle| % 4 != 0 then AssertionFailed
    else var cs := Expand(Decode(rle)); Ok((Image(cs), |cs|))
  }

  method ParseRle(rle: seq<byte>) returns (result: Result<(seq<byte>, int)>)
    ensures result == Parsed(rle)
  {
    var raw: seq<byte> := [];
    var total := 0;
    var p := 0;
    ghost var colors: seq<u16> := [];
    NoRecords(rle);
    hide Unpack, Image, Expand, Decode, FromLe16, Repeat, Parsed;
    while p < |rle|
      invariant p <= |rle| && p % 4 == 0
      invariant colors == Expand(Decode(rle[..p]))
      invariant raw == Image(colors) && total == |colors|
    {
      if p + 4 > |rle| {
        PartialRecord(rle, p);
        return AssertionFailed;
      }
      var data := rle[p..p + 4];
      var count, color := FromLe16(data[..2]), FromLe16(data[2..]);
      NextRun(rle, p, data);
      total := total + count;
      var left: nat := count;
      RepeatSnoc(colors, color, 0);
      while left > 0
        invariant 0 <= left <= count
        invariant raw == Image(colors + Repeat(color, count - left))
      {
        RepeatSnoc(colors, color, count - left);
        ImageSnoc(colors + Repeat(color, count - left), color);
        left := left - 1;
        var c := Unpack(color);
        raw := raw + [c.r, c.g, c.b];
      }
      colors := colors + Repeat(color, count);
      p := p + 4;
    }
    LastRecord(rle, p);
    return Ok((raw, total));
  }

  lemma NoRecords(rle: seq<byte>)
    ensures Expand(Decode(rle[..0])) == [] && Image([]) == []
  {}

  lemma PartialRecord(rle: seq<byte>, p: nat)
    requires p % 4 == 0 && p < |rle| < p + 4
    ensures Parsed(rle) == AssertionFailed
  {}

  lemma LastRecord(rle: seq<byte>, p: nat)
    requires p == |rle| && p % 4 == 0
    ensures var cs := Expand(Decode(rle[..p])); Parsed(rle) == Ok((Image(cs), |cs|))
  {
    assert rle[..p] == rle;
  }

  lemma NextRun(rle: seq<byte>, p: nat, data: seq<byte>)
    requires p % 4 == 0 && p + 4 <= |rle| && data == rle[p..p + 4]
    ensures Expand(Decode(rle[..p + 4]))
         == Expand(Decode(rle[..p])) + Repeat(FromLe16(data[2..]), FromLe16(data[..2]))
  {
    assert rle[..p + 4] == rle[..p] + data;
    hide Decode, Expand, FromLe16;
    DecodeSnoc(rle[..p], data);
    ExpandSnoc(Decode(rle[..p]), Run(FromLe16(data[..2]), FromLe16(data[2..])));
  }

  /** Decoding the written runs gives every pixel in its quantised form, and as many pixels as were read. */
  lemma RoundTrip(raw: seq<byte>)
    ensures var runs := RunsOf(raw);
            && Decode(Encode(runs)) == runs
            && UnpackAll(Expand(runs)) == QuantisedAll(Pixels(raw))
            && |Expand(runs)| == |raw| / 3
  {
    var ps := Pixels(raw);
    DecodeEncode(RunsOf(raw));
    ExpandGreedy(Colors(ps));
    hide Unpack, Color, Quantised, Greedy, Expand, Decode, Encode;
    forall i | 0 <= i < |ps|
      ensures Unpack(Color(ps[i])) == Quantised(ps[i])
    {
      UnpackColor(ps[i]);
    }
  }

  lemma FieldsWhole(c: u16)
    ensures c / 0x800 % 0x20 * 0x800 + c / 0x20 % 0x40 * 0x20 + c % 0x20 == c
  {
    var q := c / 0x20;
    assert c == q * 0x20 + c % 0x20;
    assert q == q / 0x40 * 0x40 + q % 0x40 && c / 0x800 == q / 0x40 < 0x20;
  }

  /** Different colours are different pixels. */
  lemma UnpackInjective(c: u16, d: u16)
    requires Unpack(c) == Unpack(d)
    ensures c == d
  {
    assert Pow2(5) == 0x20 && Pow2(6) == 0x40;
    FieldsWhole(c);
    FieldsWhole(d);
    hide Pow2, LowBits;
  }

  /** The raw file determines the colours. */
  lemma {:induction false} ImageInjective(cs: seq<u16>, ds: seq<u16>)
    requires Image(cs) == Image(ds)
    ensures cs == ds
  {
    assert |Image(cs)| == 3 * |cs| && |Image(ds)| == 3 * |ds|;
    if cs != [] {
      var n := |cs| - 1;
      assert cs == cs[..n] + [cs[n]] && ds == ds[..n] + [ds[n]];
      ImageSnoc(cs[..n], cs[n]);
      ImageSnoc(ds[..n], ds[n]);
      SameEnds(Image(cs[..n]), Unpack(cs[n]), Image(ds[..n]), Unpack(ds[n]));
      UnpackInjective(cs[n], ds[n]);
      ImageInjective(cs[..n], ds[..n]);
    }
    hide Image, Unpack;
  }

  lemma SameEnds(a: seq<byte>, p: Pixel, b: seq<byte>, q: Pixel)
    requires a + [p.r, p.g, p.b] == b + [q.r, q.g, q.b]
    ensures a == b && p == q
  {
    var s, n := a + [p.r, p.g, p.b], |a|;
    assert |a| == |b| && s[..n] == a && s[..n] == b;
    assert s[n] == p.r == q.r && s[n + 1] == p.g == q.g && s[n + 2] == p.b == q.b;
  }

  /** No file that parse_rle expands to the same raw file is shorter than the one write_rle leaves. */
  lemma {:induction false} WrittenRunsShortest(raw: seq<byte>, other: seq<byte>)
    requires |other| % 4 == 0 && Parsed(other) == Parsed(Encode(RunsOf(raw)))
    ensures |Encode(RunsOf(raw))| <= |other|
  {
    hide *;
    DecodeEncode(RunsOf(raw));
    ParsedIs(Encode(RunsOf(raw)));
    ParsedIs(other);
    ImageInjective(Expand(Decode(other)), Expand(RunsOf(raw)));
    ExpandGreedy(Colors(Pixels(raw)));
    RunsAre(raw);
    GreedyShortest(Colors(Pixels(raw)), Decode(other));
  }

  lemma RunsAre(raw: seq<byte>)
    ensures RunsOf(raw) == Greedy(Colors(Pixels(raw)))
  {}

  lemma ParsedIs(rle: seq<byte>)
    requires |rle| % 4 == 0
    ensures Parsed(rle) == Ok((Image(Expand(Decode(rle))), |Expand(Decode(rle))|)) && |rle| == 4 * |Decode(rle)|
  {}

  /** The two programs one after the other. */
  method ThereAndBack(raw: seq<byte>) returns (back: seq<byte>, written: int, read: int)
    requires raw != [] && |raw| % 3 == 0
    ensures back == RawBytes(QuantisedAll(Pixels(raw)))
    ensures written == read == |raw| / 3
  {
    RoundTrip(raw);
    hide RunsOf, Encode, Expand, Decode, UnpackAll, QuantisedAll, RawBytes;
    var encoded := WriteRle(raw);
    var decoded := ParseRle(encoded.value.0);
    return decoded.value.0, encoded.value.1, decoded.value.1;
  }
}
