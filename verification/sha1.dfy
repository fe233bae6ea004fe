/** The SHA-1 of the image builder: a rolling sixteen-word schedule, unrolled rounds with rotating variables, and
    a streaming buffer, on a little-endian machine. */
module Sha1 {
  import opened Words
  import opened Sha1Spec

  // ----- the boolean rewrites -----

  lemma Mux(b: word, c: word, d: word)
    ensures (b & (c ^ d)) ^ d == Choose(b, c, d)
  {}

  lemma Maj(b: word, c: word, d: word)
    ensures ((b | c) & d) | (b & c) == Majority(b, c, d)
  {}

  /** z += mix + b + k + r */
  function Added(z: word, mix: word, b: word, k: word, r: word): word { z + (mix + b + k + r) }

  lemma AddedIsTotal(z: word, mix: word, b: word, k: word, r: word)
    ensures Added(z, mix, b, k, r) == Total(r, mix, z, b, k)
  {}

  // ----- the rolling schedule -----

  /** A word loaded from memory by a little-endian machine. */
  function LeWord(b0: byte, b1: byte, b2: byte, b3: byte): word { BeWord(b3, b2, b1, b0) }

  /** The byte swap of blk0: two rotations, masked. */
  function Swap(x: word): word {
    (((x << 24) | (x >> 8)) & 0xFF00FF00) | (((x << 8) | (x >> 24)) & 0x00FF00FF)
  }

  function Join(x0: bv8, x1: bv8, x2: bv8, x3: bv8): word {
    ((x0 as bv32) << 24) | ((x1 as bv32) << 16) | ((x2 as bv32) << 8) | (x3 as bv32)
  }

  lemma SwapBytes(x0: bv8, x1: bv8, x2: bv8, x3: bv8)
    ensures Swap(Join(x3, x2, x1, x0)) == Join(x0, x1, x2, x3)
  {}

  lemma JoinIsWord(b0: byte, b1: byte, b2: byte, b3: byte)
    ensures BeWord(b0, b1, b2, b3) == Join(b0 as bv8, b1 as bv8, b2 as bv8, b3 as bv8)
  {}

  lemma SwapLoaded(b0: byte, b1: byte, b2: byte, b3: byte)
    ensures Swap(LeWord(b0, b1, b2, b3)) == BeWord(b0, b1, b2, b3)
  {
    hide Swap, Join, BeWord;
    JoinIsWord(b0, b1, b2, b3);
    JoinIsWord(b3, b2, b1, b0);
    SwapBytes(b0 as bv8, b1 as bv8, b2 as bv8, b3 as bv8);
  }

  /** The last round before round i that used slot j. */
  function Latest(i: nat, j: nat): nat
    requires j < i
  {
    j + 16 * ((i - 1 - j) / 16)
  }

  /** Slot j in front of round i: its latest schedule word, or still the loaded word. */
  ghost predicate SlotHolds(l: seq<word>, i: nat, m: seq<word>, j: nat)
    requires |l| == 16 == |m| && j < 16
  {
    if j < i then l[j] == W(m, Latest(i, j)) else Swap(l[j]) == m[j]
  }

  ghost predicate Workspace(l: seq<word>, i: nat, m: seq<word>) {
    |l| == 16 == |m| && forall j :: 0 <= j < 16 ==> SlotHolds(l, i, m, j)
  }

  lemma SlotUpdated(l: seq<word>, i: nat, m: seq<word>)
    requires Workspace(l, i, m)
    ensures Workspace(l[i % 16 := W(m, i)], i + 1, m)
  {
    var l', i' := l[i % 16 := W(m, i)], i + 1;
    hide W, Swap;
    forall j: nat | 0 <= j < 16
      ensures SlotHolds(l', i', m, j)
    {
      assert SlotHolds(l, i, m, j);
      LatestNext(i, j);
    }
  }

  lemma LatestNext(i: nat, j: nat)
    requires j < 16
    ensures j == i % 16 ==> j < i + 1 && Latest(i + 1, j) == i
    ensures j != i % 16 && j < i ==> Latest(i + 1, j) == Latest(i, j)
    ensures j != i % 16 ==> (j < i <==> j < i + 1)
  {}

  lemma LatestBack(i: nat, k: nat)
    requires 16 <= i && 1 <= k <= 16
    ensures (i - k) % 16 < i && Latest(i, (i - k) % 16) == i - k
    ensures (i + (16 - k)) % 16 == (i - k) % 16
  {}

  method Blk0(block: array<word>, i: nat, ghost m: seq<word>) returns (x: word)
    requires i < 16 && Workspace(block[..], i, m)
    modifies block
    ensures Workspace(block[..], i + 1, m) && x == W(m, i)
  {
    hide Swap;
    assert SlotHolds(block[..], i, m, i);
    SlotUpdated(block[..], i, m);
    ghost var l := block[..];
    x := Swap(block[i]);
    hide Workspace;
    block[i] := x;
    assert block[..] == l[i := x];
  }

  lemma Slots(l: seq<word>, i: nat, m: seq<word>)
    requires 16 <= i && Workspace(l, i, m)
    ensures l[(i + 13) % 16] == W(m, i - 3) && l[(i + 8) % 16] == W(m, i - 8)
    ensures l[(i + 2) % 16] == W(m, i - 14) && l[i % 16] == W(m, i - 16)
  {
    hide W, Swap, Latest;
    LatestBack(i, 3);
    LatestBack(i, 8);
    LatestBack(i, 14);
    LatestBack(i, 16);
    assert SlotHolds(l, i, m, (i - 3) % 16) && SlotHolds(l, i, m, (i - 8) % 16);
    assert SlotHolds(l, i, m, (i - 14) % 16) && SlotHolds(l, i, m, (i - 16) % 16);
  }

  /** blk: slot i & 15 becomes the next schedule word. */
  method Blk(block: array<word>, i: nat, ghost m: seq<word>) returns (x: word)
    requires 16 <= i && Workspace(block[..], i, m)
    modifies block
    ensures Workspace(block[..], i + 1, m) && x == W(m, i)
  {
    Slots(block[..], i, m);
    SlotUpdated(block[..], i, m);
    ghost var l := block[..];
    hide Workspace, Rol;
    x := Rol(block[(i + 13) % 16] ^ block[(i + 8) % 16] ^ block[(i + 2) % 16] ^ block[i % 16], 1);
    assert x == W(m, i);
    hide W;
    block[i % 16] := x;
    assert block[..] == l[i % 16 := x];
  }

  // ----- the round macros: the new value of z, with b the schedule word -----

  function Sum01(v: word, w: word, x: word, y: word, z: word, b: word): word {
    Added(z, ((w & (x ^ y)) ^ y), b, 0x5A827999, Rol(v, 5))
  }

  function Sum2(v: word, w: word, x: word, y: word, z: word, b: word): word {
    Added(z, (w ^ x ^ y), b, 0x6ED9EBA1, Rol(v, 5))
  }

  function Sum3(v: word, w: word, x: word, y: word, z: word, b: word): word {
    Added(z, (((w | x) & y) | (w & x)), b, 0x8F1BBCDC, Rol(v, 5))
  }

  function Sum4(v: word, w: word, x: word, y: word, z: word, b: word): word {
    Added(z, (w ^ x ^ y), b, 0xCA62C1D6, Rol(v, 5))
  }

  lemma Sum01IsTemp(t: nat, v: word, w: word, x: word, y: word, z: word, b: word)
    requires t < 20
    ensures Sum01(v, w, x, y, z, b) == Temp(t, b, Five(v, w, x, y, z))
  {
    assert F(t, w, x, y) == Choose(w, x, y) && K(t) == 0x5A827999;
    Mux(w, x, y);
    hide F, K, Rol, Added, Total, Choose;
    AddedIsTotal(z, Choose(w, x, y), b, 0x5A827999, Rol(v, 5));
  }

  lemma Sum2IsTemp(t: nat, v: word, w: word, x: word, y: word, z: word, b: word)
    requires 20 <= t < 40
    ensures Sum2(v, w, x, y, z, b) == Temp(t, b, Five(v, w, x, y, z))
  {
    assert F(t, w, x, y) == Parity(w, x, y) && K(t) == 0x6ED9EBA1;
    assert w ^ x ^ y == Parity(w, x, y);
    hide F, K, Rol, Added, Total, Parity;
    AddedIsTotal(z, Parity(w, x, y), b, 0x6ED9EBA1, Rol(v, 5));
  }

  lemma Sum3IsTemp(t: nat, v: word, w: word, x: word, y: word, z: word, b: word)
    requires 40 <= t < 60
    ensures Sum3(v, w, x, y, z, b) == Temp(t, b, Five(v, w, x, y, z))
  {
    assert F(t, w, x, y) == Majority(w, x, y) && K(t) == 0x8F1BBCDC;
    Maj(w, x, y);
    hide F, K, Rol, Added, Total, Majority;
    AddedIsTotal(z, Majority(w, x, y), b, 0x8F1BBCDC, Rol(v, 5));
  }

  lemma Sum4IsTemp(t: nat, v: word, w: word, x: word, y: word, z: word, b: word)
    requires 60 <= t
    ensures Sum4(v, w, x, y, z, b) == Temp(t, b, Five(v, w, x, y, z))
  {
    assert F(t, w, x, y) == Parity(w, x, y) && K(t) == 0xCA62C1D6;
    assert w ^ x ^ y == Parity(w, x, y);
    hide F, K, Rol, Added, Total, Parity;
    AddedIsTotal(z, Parity(w, x, y), b, 0xCA62C1D6, Rol(v, 5));
  }

  // ----- the rounds -----

  /** The working variables, in the order of the round, are those of the standard after i rounds, and the
      workspace holds the schedule. */
  ghost predicate Ready(l: seq<word>, m: seq<word>, s: Five, i: nat, v: word, w: word, x: word, y: word, z: word) {
    Workspace(l, i, m) && Rounds(m, i, s) == Five(v, w, x, y, z)
  }

  lemma NextRound(l: seq<word>, l': seq<word>, m: seq<word>, s: Five, i: nat, v: word, w: word, x: word, y: word, z: word)
    requires Ready(l, m, s, i, v, w, x, y, z) && Workspace(l', i + 1, m)
    ensures Ready(l', m, s, i + 1, Temp(i, W(m, i), Five(v, w, x, y, z)), v, Rol(w, 30), x, y)
  {
    hide Temp, W, Rol, SlotHolds;
  }

  method R0(v: word, w: word, x: word, y: word, z: word, i: nat, block: array<word>, ghost m: seq<word>, ghost s: Five)
    returns (w': word, z': word)
    requires i < 16 && Ready(block[..], m, s, i, v, w, x, y, z)
    modifies block
    ensures Ready(block[..], m, s, i + 1, z', v, w', x, y)
  {
    ghost var l := block[..];
    hide Sum01, Temp, W, Rol, SlotHolds, Rounds;
    var b := Blk0(block, i, m);
    Sum01IsTemp(i, v, w, x, y, z, b);
    z' := Sum01(v, w, x, y, z, b);
    w' := Rol(w, 30);
    NextRound(l, block[..], m, s, i, v, w, x, y, z);
  }

  method R1(v: word, w: word, x: word, y: word, z: word, i: nat, block: array<word>, ghost m: seq<word>, ghost s: Five)
    returns (w': word, z': word)
    requires 16 <= i < 20 && Ready(block[..], m, s, i, v, w, x, y, z)
    modifies block
    ensures Ready(block[..], m, s, i + 1, z', v, w', x, y)
  {
    ghost var l := block[..];
    hide Sum01, Temp, W, Rol, SlotHolds, Rounds;
    var b := Blk(block, i, m);
    Sum01IsTemp(i, v, w, x, y, z, b);
    z' := Sum01(v, w, x, y, z, b);
    w' := Rol(w, 30);
    NextRound(l, block[..], m, s, i, v, w, x, y, z);
  }

  method R2(v: word, w: word, x: word, y: word, z: word, i: nat, block: array<word>, ghost m: seq<word>, ghost s: Five)
    returns (w': word, z': word)
    requires 20 <= i < 40 && Ready(block[..], m, s, i, v, w, x, y, z)
    modifies block
    ensures Ready(block[..], m, s, i + 1, z', v, w', x, y)
  {
    ghost var l := block[..];
    hide Sum2, Temp, W, Rol, SlotHolds, Rounds;
    var b := Blk(block, i, m);
    Sum2IsTemp(i, v, w, x, y, z, b);
    z' := Sum2(v, w, x, y, z, b);
    w' := Rol(w, 30);
    NextRound(l, block[..], m, s, i, v, w, x, y, z);
  }

  method R3(v: word, w: word, x: word, y: word, z: word, i: nat, block: array<word>, ghost m: seq<word>, ghost s: Five)
    returns (w': word, z': word)
    requires 40 <= i < 60 && Ready(block[..], m, s, i, v, w, x, y, z)
    modifies block
    ensures Ready(block[..], m, s, i + 1, z', v, w', x, y)
  {
    ghost var l := block[..];
    hide Sum3, Temp, W, Rol, SlotHolds, Rounds;
    var b := Blk(block, i, m);
    Sum3IsTemp(i, v, w, x, y, z, b);
    z' := Sum3(v, w, x, y, z, b);
    w' := Rol(w, 30);
    NextRound(l, block[..], m, s, i, v, w, x, y, z);
  }

  method R4(v: word, w: word, x: word, y: word, z: word, i: nat, block: array<word>, ghost m: seq<word>, ghost s: Five)
    returns (w': word, z': word)
    requires 60 <= i < 80 && Ready(block[..], m, s, i, v, w, x, y, z)
    modifies block
    ensures Ready(block[..], m, s, i + 1, z', v, w', x, y)
  {
    ghost var l := block[..];
    hide Sum4, Temp, W, Rol, SlotHolds, Rounds;
    var b := Blk(block, i, m);
    Sum4IsTemp(i, v, w, x, y, z, b);
    z' := Sum4(v, w, x, y, z, b);
    w' := Rol(w, 30);
    NextRound(l, block[..], m, s, i, v, w, x, y, z);
  }

  method DoR01(a0: word, b0: word, c0: word, d0: word, e0: word, block: array<word>, ghost m: seq<word>, ghost s: Five)
    returns (a: word, b: word, c: word, d: word, e: word)
    requires Ready(block[..], m, s, 0, a0, b0, c0, d0, e0)
    modifies block
    ensures Ready(block[..], m, s, 20, a, b, c, d, e)
  {
    hide *;
    a, b, c, d, e := a0, b0, c0, d0, e0;
    b, e := R0(a, b, c, d, e, 0, block, m, s);
    a, d := R0(e, a, b, c, d, 1, block, m, s);
    e, c := R0(d, e, a, b, c, 2, block, m, s);
    d, b := R0(c, d, e, a, b, 3, block, m, s);
    c, a := R0(b, c, d, e, a, 4, block, m, s);
    b, e := R0(a, b, c, d, e, 5, block, m, s);
    a, d := R0(e, a, b, c, d, 6, block, m, s);
    e, c := R0(d, e, a, b, c, 7, block, m, s);
    d, b := R0(c, d, e, a, b, 8, block, m, s);
    c, a := R0(b, c, d, e, a, 9, block, m, s);
    b, e := R0(a, b, c, d, e, 10, block, m, s);
    a, d := R0(e, a, b, c, d, 11, block, m, s);
    e, c := R0(d, e, a, b, c, 12, block, m, s);
    d, b := R0(c, d, e, a, b, 13, block, m, s);
    c, a := R0(b, c, d, e, a, 14, block, m, s);
    b, e := R0(a, b, c, d, e, 15, block, m, s);
    a, d := R1(e, a, b, c, d, 16, block, m, s);
    e, c := R1(d, e, a, b, c, 17, block, m, s);
    d, b := R1(c, d, e, a, b, 18, block, m, s);
    c, a := R1(b, c, d, e, a, 19, block, m, s);
  }

  method DoR2(a0: word, b0: word, c0: word, d0: word, e0: word, block: array<word>, ghost m: seq<word>, ghost s: Five)
    returns (a: word, b: word, c: word, d: word, e: word)
    requires Ready(block[..], m, s, 20, a0, b0, c0, d0, e0)
    modifies block
    ensures Ready(block[..], m, s, 40, a, b, c, d, e)
  {
    hide *;
    a, b, c, d, e := a0, b0, c0, d0, e0;
    b, e := R2(a, b, c, d, e, 20, block, m, s);
    a, d := R2(e, a, b, c, d, 21, block, m, s);
    e, c := R2(d, e, a, b, c, 22, block, m, s);
    d, b := R2(c, d, e, a, b, 23, block, m, s);
    c, a := R2(b, c, d, e, a, 24, block, m, s);
    b, e := R2(a, b, c, d, e, 25, block, m, s);
    a, d := R2(e, a, b, c, d, 26, block, m, s);
    e, c := R2(d, e, a, b, c, 27, block, m, s);
    d, b := R2(c, d, e, a, b, 28, block, m, s);
    c, a := R2(b, c, d, e, a, 29, block, m, s);
    b, e := R2(a, b, c, d, e, 30, block, m, s);
    a, d := R2(e, a, b, c, d, 31, block, m, s);
    e, c := R2(d, e, a, b, c, 32, block, m, s);
    d, b := R2(c, d, e, a, b, 33, block, m, s);
    c, a := R2(b, c, d, e, a, 34, block, m, s);
    b, e := R2(a, b, c, d, e, 35, block, m, s);
    a, d := R2(e, a, b, c, d, 36, block, m, s);
    e, c := R2(d, e, a, b, c, 37, block, m, s);
    d, b := R2(c, d, e, a, b, 38, block, m, s);
    c, a := R2(b, c, d, e, a, 39, block, m, s);
  }

  method DoR3(a0: word, b0: word, c0: word, d0: word, e0: word, block: array<word>, ghost m: seq<word>, ghost s: Five)
    returns (a: word, b: word, c: word, d: word, e: word)
    requires Ready(block[..], m, s, 40, a0, b0, c0, d0, e0)
    modifies block
    ensures Ready(block[..], m, s, 60, a, b, c, d, e)
  {
    hide *;
    a, b, c, d, e := a0, b0, c0, d0, e0;
    b, e := R3(a, b, c, d, e, 40, block, m, s);
    a, d := R3(e, a, b, c, d, 41, block, m, s);
    e, c := R3(d, e, a, b, c, 42, block, m, s);
    d, b := R3(c, d, e, a, b, 43, block, m, s);
    c, a := R3(b, c, d, e, a, 44, block, m, s);
    b, e := R3(a, b, c, d, e, 45, block, m, s);
    a, d := R3(e, a, b, c, d, 46, block, m, s);
    e, c := R3(d, e, a, b, c, 47, block, m, s);
    d, b := R3(c, d, e, a, b, 48, block, m, s);
    c, a := R3(b, c, d, e, a, 49, block, m, s);
    b, e := R3(a, b, c, d, e, 50, block, m, s);
    a, d := R3(e, a, b, c, d, 51, block, m, s);
    e, c := R3(d, e, a, b, c, 52, block, m, s);
    d, b := R3(c, d, e, a, b, 53, block, m, s);
    c, a := R3(b, c, d, e, a, 54, block, m, s);
    b, e := R3(a, b, c, d, e, 55, block, m, s);
    a, d := R3(e, a, b, c, d, 56, block, m, s);
    e, c := R3(d, e, a, b, c, 57, block, m, s);
    d, b := R3(c, d, e, a, b, 58, block, m, s);
    c, a := R3(b, c, d, e, a, 59, block, m, s);
  }

  method DoR4(a0: word, b0: word, c0: word, d0: word, e0: word, block: array<word>, ghost m: seq<word>, ghost s: Five)
    returns (a: word, b: word, c: word, d: word, e: word)
    requires Ready(block[..], m, s, 60, a0, b0, c0, d0, e0)
    modifies block
    ensures Ready(block[..], m, s, 80, a, b, c, d, e)
  {
    hide *;
    a, b, c, d, e := a0, b0, c0, d0, e0;
    b, e := R4(a, b, c, d, e, 60, block, m, s);
    a, d := R4(e, a, b, c, d, 61, block, m, s);
    e, c := R4(d, e, a, b, c, 62, block, m, s);
    d, b := R4(c, d, e, a, b, 63, block, m, s);
    c, a := R4(b, c, d, e, a, 64, block, m, s);
    b, e := R4(a, b, c, d, e, 65, block, m, s);
    a, d := R4(e, a, b, c, d, 66, block, m, s);
    e, c := R4(d, e, a, b, c, 67, block, m, s);
    d, b := R4(c, d, e, a, b, 68, block, m, s);
    c, a := R4(b, c, d, e, a, 69, block, m, s);
    b, e := R4(a, b, c, d, e, 70, block, m, s);
    a, d := R4(e, a, b, c, d, 71, block, m, s);
    e, c := R4(d, e, a, b, c, 72, block, m, s);
    d, b := R4(c, d, e, a, b, 73, block, m, s);
    c, a := R4(b, c, d, e, a, 74, block, m, s);
    b, e := R4(a, b, c, d, e, 75, block, m, s);
    a, d := R4(e, a, b, c, d, 76, block, m, s);
    e, c := R4(d, e, a, b, c, 77, block, m, s);
    d, b := R4(c, d, e, a, b, 78, block, m, s);
    c, a := R4(b, c, d, e, a, 79, block, m, s);
  }

  // ----- one block -----

  ghost predicate Holds(state: seq<word>, h: Five) {
    state == [h.a, h.b, h.c, h.d, h.e]
  }

  /** memcpy of a block into the union of bytes and words. */
  method LoadBlock(buffer: seq<byte>) returns (block: array<word>)
    requires |buffer| == 64
    ensures fresh(block) && Workspace(block[..], 0, BlockWords(buffer))
  {
    block := new word[16];
    hide Swap, BeWord;
    for i := 0 to 16
      invariant forall j :: 0 <= j < i ==> Swap(block[j]) == BlockWords(buffer)[j]
    {
      SwapLoaded(buffer[4 * i], buffer[4 * i + 1], buffer[4 * i + 2], buffer[4 * i + 3]);
      block[i] := LeWord(buffer[4 * i], buffer[4 * i + 1], buffer[4 * i + 2], buffer[4 * i + 3]);
    }
  }

  lemma StartRounds(l: seq<word>, m: seq<word>, s: Five)
    requires Workspace(l, 0, m)
    ensures Ready(l, m, s, 0, s.a, s.b, s.c, s.d, s.e)
  {}

  lemma EndRounds(l: seq<word>, block: seq<byte>, s: Five, a: word, b: word, c: word, d: word, e: word)
    requires |block| == 64 && Ready(l, BlockWords(block), s, 80, a, b, c, d, e)
    ensures Compress(s, block) == Add(s, Five(a, b, c, d, e))
  {
    hide Workspace, Rounds, Add, BlockWords;
  }

  lemma StateWords(state: seq<word>, h: Five)
    requires Holds(state, h)
    ensures |state| == 5 && h == Five(state[0], state[1], state[2], state[3], state[4])
  {}

  /** SHA1Transform: one block through the compression function of the standard. */
  method Transform(state: array<word>, buffer: seq<byte>, ghost h: Five)
    requires state.Length == 5 && Holds(state[..], h) && |buffer| == 64
    modifies state
    ensures Holds(state[..], Compress(h, buffer))
  {
    ghost var m := BlockWords(buffer);
    StateWords(state[..], h);
    hide Ready, Workspace, BlockWords, Compress, Plus;
    var a, b, c, d, e := state[0], state[1], state[2], state[3], state[4];
    var block := LoadBlock(buffer);
    StartRounds(block[..], m, h);
    a, b, c, d, e := DoR01(a, b, c, d, e, block, m, h);
    a, b, c, d, e := DoR2(a, b, c, d, e, block, m, h);
    a, b, c, d, e := DoR3(a, b, c, d, e, block, m, h);
    a, b, c, d, e := DoR4(a, b, c, d, e, block, m, h);
    EndRounds(block[..], buffer, h, a, b, c, d, e);
    AddTo(state, a, b, c, d, e, h);
  }

  /** Adds the working variables back into the state. */
  method AddTo(state: array<word>, a: word, b: word, c: word, d: word, e: word, ghost h: Five)
    requires state.Length == 5 && Holds(state[..], h)
    modifies state
    ensures Holds(state[..], Add(h, Five(a, b, c, d, e)))
  {
    hide Plus;
    StateWords(state[..], h);
    state[0] := Plus(state[0], a);
    state[1] := Plus(state[1], b);
    state[2] := Plus(state[2], c);
    state[3] := Plus(state[3], d);
    state[4] := Plus(state[4], e);
  }
}
