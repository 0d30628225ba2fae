/** The two packet-tag generators.

    Pittle is a 2-byte tag derived from the 16-bit wrapping sum of the
    endpoint bytes and the packet length. Chonkle is a 15-byte tag derived
    from the 64-bit FNV-1a hash of the shared magic, the endpoints and the
    packet length, redistributed into fixed per-byte ranges. Ports and the
    length enter both as their little-endian bytes; the length is first
    truncated to a uint32, as Go's `uint32(packetLength)` does. */
module Tags {
  import opened Bytes

  // ----------------------------------------------------------------- Pittle

  /** The unbounded sum of the bytes: the reference the 16-bit sum wraps. */
  function Total(s: seq<byte>): nat
  {
    if |s| == 0 then 0 else s[0] as nat + Total(s[1..])
  }

  /** Go's `sum += uint16(b)` over the bytes in order, wrapping at 2^16 after
      every addition: it is the unbounded sum modulo 2^16. */
  function Sum16(s: seq<byte>): (r: u16)
    ensures r == Total(s) % 0x1_0000
  {
    if |s| == 0 then 0
    else
      var init, last := s[..|s| - 1], s[|s| - 1];
      assert init + [last] == s;
      TotalAppend(init, [last]);
      ModAdd(Total(init), last as nat);
      (Sum16(init) + last as nat) % 0x1_0000
  }

  lemma {:induction false} TotalAppend(a: seq<byte>, b: seq<byte>)
    ensures Total(a + b) == Total(a) + Total(b)
  {
    if |a| == 0 {
      assert a + b == b;
    } else {
      assert (a + b)[1..] == a[1..] + b;
      TotalAppend(a[1..], b);
    }
  }

  lemma ModAdd(a: nat, x: nat)
    ensures (a % 0x1_0000 + x) % 0x1_0000 == (a + x) % 0x1_0000
  {
  }

  /** Removing the byte at `j` takes it out of the multiset ... */
  lemma RemoveAtMultiset(b: seq<byte>, j: nat)
    requires j < |b|
    ensures multiset(b[..j] + b[j + 1..]) == multiset(b) - multiset{b[j]}
  {
    var l := b[..j];
    var r := b[j + 1..];
    assert b == l + [b[j]] + r;
  }

  /** ... and out of the sum. */
  lemma RemoveAtTotal(b: seq<byte>, j: nat)
    requires j < |b|
    ensures Total(b) == Total(b[..j] + b[j + 1..]) + b[j] as nat
  {
    var l, r := b[..j], b[j + 1..];
    assert b == l + ([b[j]] + r);
    TotalAppend(l, [b[j]] + r);
    assert ([b[j]] + r)[1..] == r;
    TotalAppend(l, r);
  }

  /** The sum depends only on which bytes occur, not on their order. */
  lemma {:induction false} TotalPermutation(a: seq<byte>, b: seq<byte>)
    requires multiset(a) == multiset(b)
    ensures Total(a) == Total(b)
    decreases |a|
  {
    if |a| == 0 {
      assert |b| == |multiset(b)| == 0;
    } else {
      var x, rest := a[0], a[1..];
      assert a == [x] + rest;
      assert multiset(rest) == multiset(a) - multiset{x};
      assert x in multiset(b);
      var j :| 0 <= j < |b| && b[j] == x;
      RemoveAtMultiset(b, j);
      RemoveAtTotal(b, j);
      TotalPermutation(rest, b[..j] + b[j + 1..]);
    }
  }

  lemma Sum16Permutation(a: seq<byte>, b: seq<byte>)
    requires multiset(a) == multiset(b)
    ensures Sum16(a) == Sum16(b)
  {
    TotalPermutation(a, b);
  }

  /** The bytes Pittle sums, in the order the Go code adds them: every
      field exactly once, with the ports and the length as their
      little-endian bytes. */
  function PittleInput(fromAddress: seq<byte>, fromPort: u16, toAddress: seq<byte>, toPort: u16,
                       packetLength: int): (r: seq<byte>)
    ensures |r| == |fromAddress| + |toAddress| + 8
    ensures Total(r) == Total(fromAddress) + Total(LE2(fromPort)) + Total(toAddress) + Total(LE2(toPort))
                        + Total(LE4(U32Of(packetLength)))
  {
    var fp, tp, pl := LE2(fromPort), LE2(toPort), LE4(U32Of(packetLength));
    TotalAppend(fromAddress, fp);
    TotalAppend(fromAddress + fp, toAddress);
    TotalAppend(fromAddress + fp + toAddress, tp);
    TotalAppend(fromAddress + fp + toAddress + tp, pl);
    fromAddress + fp + toAddress + tp + pl
  }

  /** The obfuscation of the sum: both bytes are forced odd (never zero). */
  function PittleOfSum(sum: u16): (r: seq<byte>)
    ensures |r| == 2 && r[0] & 1 == 1 && r[1] & 1 == 1
  {
    var sumData := LE2(sum);
    var o0: byte := 1 | (sumData[0] ^ sumData[1] ^ 193);
    var o1: byte := 1 | ((255 - o0) ^ 113);
    [o0, o1]
  }

  function Pittle(fromAddress: seq<byte>, fromPort: u16, toAddress: seq<byte>, toPort: u16,
                  packetLength: int): (r: seq<byte>)
    ensures |r| == 2 && r[0] & 1 == 1 && r[1] & 1 == 1
  {
    PittleOfSum(Sum16(PittleInput(fromAddress, fromPort, toAddress, toPort, packetLength)))
  }

  /** Pittle sees its inputs only through the sum of their bytes modulo 2^16. */
  lemma PittleDependsOnlyOnSum(fromAddress: seq<byte>, fromPort: u16, toAddress: seq<byte>, toPort: u16,
                               packetLength: int,
                               fromAddress': seq<byte>, fromPort': u16, toAddress': seq<byte>, toPort': u16,
                               packetLength': int)
    requires Total(PittleInput(fromAddress, fromPort, toAddress, toPort, packetLength)) % 0x1_0000
          == Total(PittleInput(fromAddress', fromPort', toAddress', toPort', packetLength')) % 0x1_0000
    ensures Pittle(fromAddress, fromPort, toAddress, toPort, packetLength)
         == Pittle(fromAddress', fromPort', toAddress', toPort', packetLength')
  {
  }

  /** Swapping the two endpoints does not change the tag, so Pittle cannot
      tell the direction of a packet. */
  lemma PittleSymmetric(fromAddress: seq<byte>, fromPort: u16, toAddress: seq<byte>, toPort: u16,
                        packetLength: int)
    ensures Pittle(fromAddress, fromPort, toAddress, toPort, packetLength)
         == Pittle(toAddress, toPort, fromAddress, fromPort, packetLength)
  {
    var p := PittleInput(fromAddress, fromPort, toAddress, toPort, packetLength);
    var q := PittleInput(toAddress, toPort, fromAddress, fromPort, packetLength);
    assert Total(p) == Total(q);
    assert Sum16(p) == Sum16(q);
  }

  // ---------------------------------------------------------------- Chonkle

  const FnvOffsetBasis: bv64 := 0xcbf29ce484222325
  const FnvPrime: bv64 := 0x100000001b3

  /** Feeding bytes to an FNV-1a 64 state (Go's `hash.Write`): for each byte,
      xor it in, then multiply by the prime modulo 2^64. */
  function FnvStep(h: bv64, b: byte): bv64
  {
    (h ^ (b as bv64)) * FnvPrime
  }

  function FnvWrite(h: bv64, s: seq<byte>): bv64
    decreases |s|
  {
    if |s| == 0 then h else FnvWrite(FnvStep(h, s[0]), s[1..])
  }

  function Fnv1a64(s: seq<byte>): bv64
  {
    FnvWrite(FnvOffsetBasis, s)
  }

  /** Writing in pieces is writing the concatenation: the six `hash.Write`
      calls hash one byte string. */
  lemma {:induction false} FnvWriteAppend(h: bv64, a: seq<byte>, b: seq<byte>)
    ensures FnvWrite(FnvWrite(h, a), b) == FnvWrite(h, a + b)
    decreases |a|
  {
    if |a| == 0 {
      assert a + b == b;
    } else {
      assert (a + b)[0] == a[0];
      assert (a + b)[1..] == a[1..] + b;
      FnvWriteAppend(FnvStep(h, a[0]), a[1..], b);
    }
  }

  /** The published FNV-1a 64 test vectors for "", "a" and "foobar". */
  lemma Fnv1a64TestVectors()
    ensures Fnv1a64([]) == 0xcbf29ce484222325
    ensures Fnv1a64([0x61]) == 0xaf63dc4c8601ec8c
    ensures Fnv1a64([0x66, 0x6f, 0x6f, 0x62, 0x61, 0x72]) == 0x85944171f73967e8
  {
    assert FnvWrite(0xaf63dc4c8601ec8c, []) == 0xaf63dc4c8601ec8c;
    var s := [0x66, 0x6f, 0x6f, 0x62, 0x61, 0x72];
    var h0 := FnvOffsetBasis;
    var h1 := (h0 ^ 0x66) * FnvPrime;
    var h2 := (h1 ^ 0x6f) * FnvPrime;
    var h3 := (h2 ^ 0x6f) * FnvPrime;
    var h4 := (h3 ^ 0x62) * FnvPrime;
    var h5 := (h4 ^ 0x61) * FnvPrime;
    var h6 := (h5 ^ 0x72) * FnvPrime;
    assert FnvWrite(h5, s[5..]) == h6;
    assert FnvWrite(h4, s[4..]) == h6;
    assert FnvWrite(h3, s[3..]) == h6;
    assert FnvWrite(h2, s[2..]) == h6;
    assert FnvWrite(h1, s[1..]) == h6;
    assert h6 == 0x85944171f73967e8;
  }

  /** The eight bytes of the hash, least significant first (Go's
      `binary.LittleEndian.PutUint64`). */
  function HashBytes(h: bv64): (d: seq<byte>)
    ensures |d| == 8
  {
    [(h & 0xFF) as byte, ((h >> 8) & 0xFF) as byte,
     ((h >> 16) & 0xFF) as byte, ((h >> 24) & 0xFF) as byte,
     ((h >> 32) & 0xFF) as byte, ((h >> 40) & 0xFF) as byte,
     ((h >> 48) & 0xFF) as byte, (h >> 56) as byte]
  }

  /** The hash whose bytes are `d`: every 8-byte string is some hash's bytes. */
  function HashOfBytes(d: seq<byte>): (h: bv64)
    requires |d| == 8
    ensures HashBytes(h) == d
  {
    (d[0] as bv64) | ((d[1] as bv64) << 8) | ((d[2] as bv64) << 16) | ((d[3] as bv64) << 24)
    | ((d[4] as bv64) << 32) | ((d[5] as bv64) << 40) | ((d[6] as bv64) << 48) | ((d[7] as bv64) << 56)
  }

  /** The layout loses nothing: the hash is recovered from its eight bytes,
      so `HashBytes` and `HashOfBytes` are inverse bijections. */
  lemma HashOfHashBytes(h: bv64)
    ensures HashOfBytes(HashBytes(h)) == h
  {
  }

  /** The per-byte ranges of a 15-byte tag, with the upper bound of byte 6
      as a parameter: the one bound in which the Chonkle ranges and the
      basic filter's ranges differ. Byte 3 is a hash byte verbatim and may
      be anything. */
  predicate TagRanges(t: seq<byte>, top6: byte)
  {
    && |t| == 15
    && 42 <= t[0] <= 45
    && 200 <= t[1] <= 231
    && 5 <= t[2] <= 68
    && 78 <= t[4] <= 81
    && 96 <= t[5] <= 223
    && 100 <= t[6] <= top6
    && t[7] in {79, 7}
    && t[8] in {37, 83}
    && 124 <= t[9] <= 131
    && 175 <= t[10] <= 182
    && 33 <= t[11] <= 96
    && t[12] in {97, 5, 43, 13}
    && 210 <= t[13] <= 241
    && 17 <= t[14] <= 144
  }

  /** The per-byte ranges a Chonkle tag lies in. */
  predicate ChonkleRanges(t: seq<byte>)
  {
    TagRanges(t, 163)
  }

  /** The exact set of Chonkle tags: the ranges, plus the one dependency
      between bytes. Bytes 6 and 10 both take the top three bits of hash
      byte 1, so byte 10 is fixed by byte 6. */
  predicate ChonkleImage(t: seq<byte>)
  {
    ChonkleRanges(t) && t[10] - 175 == (t[6] - 100) >> 3
  }

  /** The 15-byte tag with the given bytes. */
  function TagOf(b0: byte, b1: byte, b2: byte, b3: byte, b4: byte, b5: byte, b6: byte, b7: byte,
                 b8: byte, b9: byte, b10: byte, b11: byte, b12: byte, b13: byte, b14: byte): (t: seq<byte>)
    ensures |t| == 15
  {
    [b0, b1, b2, b3, b4, b5, b6, b7, b8, b9, b10, b11, b12, b13, b14]
  }

  /** A 15-byte string is the tag of its own bytes. */
  lemma TagOfItsBytes(t: seq<byte>)
    requires |t| == 15
    ensures t == TagOf(t[0], t[1], t[2], t[3], t[4], t[5], t[6], t[7], t[8], t[9], t[10], t[11], t[12], t[13], t[14])
  {
  }

  /** `ChonkleImage` stated on the fifteen bytes one by one. It says nothing
      new; it exists so that the proofs about the redistribution reason
      about fifteen byte values instead of a sequence literal, which keeps
      them cheap for the solver. */
  predicate InImage(t0: byte, t1: byte, t2: byte, t3: byte, t4: byte, t5: byte, t6: byte, t7: byte,
                    t8: byte, t9: byte, t10: byte, t11: byte, t12: byte, t13: byte, t14: byte)
  {
    && 42 <= t0 <= 45 && 200 <= t1 <= 231 && 5 <= t2 <= 68 && 78 <= t4 <= 81 && 96 <= t5 <= 223
    && 100 <= t6 <= 163 && t7 in {79, 7} && t8 in {37, 83} && 124 <= t9 <= 131
    && 175 <= t10 <= 182 && 33 <= t11 <= 96 && t12 in {97, 5, 43, 13} && 210 <= t13 <= 241
    && 17 <= t14 <= 144 && t10 - 175 == (t6 - 100) >> 3
  }

  lemma InImageOfImage(t: seq<byte>)
    requires ChonkleImage(t)
    ensures InImage(t[0], t[1], t[2], t[3], t[4], t[5], t[6], t[7], t[8], t[9], t[10], t[11], t[12], t[13], t[14])
  {
  }

  lemma ImageOfInImage(b0: byte, b1: byte, b2: byte, b3: byte, b4: byte, b5: byte, b6: byte, b7: byte,
                       b8: byte, b9: byte, b10: byte, b11: byte, b12: byte, b13: byte, b14: byte)
    requires InImage(b0, b1, b2, b3, b4, b5, b6, b7, b8, b9, b10, b11, b12, b13, b14)
    ensures ChonkleImage(TagOf(b0, b1, b2, b3, b4, b5, b6, b7, b8, b9, b10, b11, b12, b13, b14))
  {
  }

  /** The redistribution of the eight hash bytes into fifteen tag bytes. */
  function Redistribute(d0: byte, d1: byte, d2: byte, d3: byte, d4: byte, d5: byte, d6: byte, d7: byte): (t: seq<byte>)
    ensures ChonkleImage(t)
  {
    var low2 := d1 & 0x03;
    var b0, b1, b2, b3, b4 := ((d6 & 0xC0) >> 6) + 42, (d3 & 0x1F) + 200, ((d2 & 0xFC) >> 2) + 5, d0, (d2 & 0x03) + 78;
    var b5, b6 := (d4 & 0x7F) + 96, ((d1 & 0xFC) >> 2) + 100;
    var b7: byte := if d7 & 1 == 0 then 79 else 7;
    var b8: byte := if d4 & 0x80 == 0 then 37 else 83;
    var b9, b10, b11 := (d5 & 0x07) + 124, ((d1 & 0xE0) >> 5) + 175, (d6 & 0x3F) + 33;
    var b12: byte := if low2 == 0 then 97 else if low2 == 1 then 5 else if low2 == 2 then 43 else 13;
    var b13, b14 := ((d5 & 0xF8) >> 3) + 210, ((d7 & 0xFE) >> 1) + 17;
    ImageOfInImage(b0, b1, b2, b3, b4, b5, b6, b7, b8, b9, b10, b11, b12, b13, b14);
    TagOf(b0, b1, b2, b3, b4, b5, b6, b7, b8, b9, b10, b11, b12, b13, b14)
  }

  /** None of the byte additions in the redistribution wraps: each field plus
      its offset is below 256 as an unbounded number, so Go's `byte`
      arithmetic computes the intended value. */
  lemma RedistributeNoOverflow(d0: byte, d1: byte, d2: byte, d3: byte, d4: byte, d5: byte, d6: byte, d7: byte)
    ensures ((d6 & 0xC0) >> 6) as nat + 42 <= 45
    ensures (d3 & 0x1F) as nat + 200 <= 231
    ensures ((d2 & 0xFC) >> 2) as nat + 5 <= 68
    ensures (d2 & 0x03) as nat + 78 <= 81
    ensures (d4 & 0x7F) as nat + 96 <= 223
    ensures ((d1 & 0xFC) >> 2) as nat + 100 <= 163
    ensures (d5 & 0x07) as nat + 124 <= 131
    ensures ((d1 & 0xE0) >> 5) as nat + 175 <= 182
    ensures (d6 & 0x3F) as nat + 33 <= 96
    ensures ((d5 & 0xF8) >> 3) as nat + 210 <= 241
    ensures ((d7 & 0xFE) >> 1) as nat + 17 <= 144
  {
  }

  /** The tag for the eight hash bytes, least significant first. */
  function ChonkleOfHashBytes(d: seq<byte>): (t: seq<byte>)
    requires |d| == 8
    ensures ChonkleImage(t)
  {
    Redistribute(d[0], d[1], d[2], d[3], d[4], d[5], d[6], d[7])
  }

  /** Selector of byte 12: the two low bits of hash byte 1. */
  function Code12(t12: byte): byte
  {
    if t12 == 97 then 0 else if t12 == 5 then 1 else if t12 == 43 then 2 else 3
  }

  /** Hash bytes that redistribute to `t`, rebuilt field by field (the three
      bits of hash byte 3 that no tag byte uses are zero). */
  function HashBytesOfTag(t: seq<byte>): (d: seq<byte>)
    requires |t| == 15
    ensures |d| == 8
  {
    [ t[3],
      ((t[6] - 100) << 2) | Code12(t[12]),
      ((t[2] - 5) << 2) | (t[4] - 78),
      t[1] - 200,
      (t[5] - 96) | (if t[8] == 83 then 0x80 else 0),
      ((t[13] - 210) << 3) | (t[9] - 124),
      ((t[0] - 42) << 6) | (t[11] - 33),
      ((t[14] - 17) << 1) | (if t[7] == 7 then 1 else 0) ]
  }

  lemma RebuildByte1(t6: byte, t10: byte, t12: byte)
    requires 100 <= t6 <= 163 && t10 - 175 == (t6 - 100) >> 3 && t12 in {97, 5, 43, 13}
    ensures var d1 := ((t6 - 100) << 2) | Code12(t12);
            var low2 := d1 & 0x03;
            && ((d1 & 0xFC) >> 2) + 100 == t6
            && ((d1 & 0xE0) >> 5) + 175 == t10
            && (if low2 == 0 then 97 else if low2 == 1 then 5 else if low2 == 2 then 43 else 13) == t12
  {
  }

  lemma RebuildByte2(t2: byte, t4: byte)
    requires 5 <= t2 <= 68 && 78 <= t4 <= 81
    ensures var d2 := ((t2 - 5) << 2) | (t4 - 78);
            ((d2 & 0xFC) >> 2) + 5 == t2 && (d2 & 0x03) + 78 == t4
  {
  }

  lemma RebuildByte4(t5: byte, t8: byte)
    requires 96 <= t5 <= 223 && t8 in {37, 83}
    ensures var d4 := (t5 - 96) | (if t8 == 83 then 0x80 else 0);
            (d4 & 0x7F) + 96 == t5 && (if d4 & 0x80 == 0 then 37 else 83) == t8
  {
  }

  lemma RebuildByte5(t9: byte, t13: byte)
    requires 124 <= t9 <= 131 && 210 <= t13 <= 241
    ensures var d5 := ((t13 - 210) << 3) | (t9 - 124);
            (d5 & 0x07) + 124 == t9 && ((d5 & 0xF8) >> 3) + 210 == t13
  {
  }

  lemma RebuildByte6(t0: byte, t11: byte)
    requires 42 <= t0 <= 45 && 33 <= t11 <= 96
    ensures var d6 := ((t0 - 42) << 6) | (t11 - 33);
            ((d6 & 0xC0) >> 6) + 42 == t0 && (d6 & 0x3F) + 33 == t11
  {
  }

  lemma RebuildByte7(t7: byte, t14: byte)
    requires t7 in {79, 7} && 17 <= t14 <= 144
    ensures var d7 := ((t14 - 17) << 1) | (if t7 == 7 then 1 else 0);
            (if d7 & 1 == 0 then 79 else 7) == t7 && ((d7 & 0xFE) >> 1) + 17 == t14
  {
  }

  /** Redistributing the rebuilt hash bytes gives back every tag byte. */
  lemma RebuildTag(t0: byte, t1: byte, t2: byte, t3: byte, t4: byte, t5: byte, t6: byte, t7: byte,
                   t8: byte, t9: byte, t10: byte, t11: byte, t12: byte, t13: byte, t14: byte)
    requires InImage(t0, t1, t2, t3, t4, t5, t6, t7, t8, t9, t10, t11, t12, t13, t14)
    ensures Redistribute(t3, ((t6 - 100) << 2) | Code12(t12), ((t2 - 5) << 2) | (t4 - 78), t1 - 200,
                         (t5 - 96) | (if t8 == 83 then 0x80 else 0), ((t13 - 210) << 3) | (t9 - 124),
                         ((t0 - 42) << 6) | (t11 - 33), ((t14 - 17) << 1) | (if t7 == 7 then 1 else 0))
         == TagOf(t0, t1, t2, t3, t4, t5, t6, t7, t8, t9, t10, t11, t12, t13, t14)
  {
    RebuildByte1(t6, t10, t12);
    RebuildByte2(t2, t4);
    RebuildByte4(t5, t8);
    RebuildByte5(t9, t13);
    RebuildByte6(t0, t11);
    RebuildByte7(t7, t14);
  }

  /** `HashBytesOfTag` is a right inverse of the redistribution on the image. */
  lemma ChonkleOfHashBytesOfTag(t: seq<byte>)
    requires ChonkleImage(t)
    ensures ChonkleOfHashBytes(HashBytesOfTag(t)) == t
  {
    TagOfItsBytes(t);
    InImageOfImage(t);
    RebuildTag(t[0], t[1], t[2], t[3], t[4], t[5], t[6], t[7], t[8], t[9], t[10], t[11], t[12], t[13], t[14]);
  }

  /** Every tag in `ChonkleImage` comes from some hash value: the image
      predicate is exactly the set of possible tags. */
  lemma ChonkleImageIsExact(t: seq<byte>)
    requires ChonkleImage(t)
    ensures exists h: bv64 :: ChonkleOfHashBytes(HashBytes(h)) == t
  {
    var d := HashBytesOfTag(t);
    ChonkleOfHashBytesOfTag(t);
    var h := HashOfBytes(d);
    assert ChonkleOfHashBytes(HashBytes(h)) == t;
  }

  /** The hash the Go code computes: six writes into one FNV-1a 64 state.
      It is the FNV-1a 64 hash of
      magic ‖ fromAddress ‖ fromPort ‖ toAddress ‖ toPort ‖ length. */
  function ChonkleHash(magic: seq<byte>, fromAddress: seq<byte>, fromPort: u16,
                       toAddress: seq<byte>, toPort: u16, packetLength: int): (h: bv64)
    ensures h == Fnv1a64(magic + fromAddress + LE2(fromPort) + toAddress + LE2(toPort)
                         + LE4(U32Of(packetLength)))
  {
    var fp, tp, pl := LE2(fromPort), LE2(toPort), LE4(U32Of(packetLength));
    FnvWriteAppend(FnvOffsetBasis, magic, fromAddress);
    FnvWriteAppend(FnvOffsetBasis, magic + fromAddress, fp);
    FnvWriteAppend(FnvOffsetBasis, magic + fromAddress + fp, toAddress);
    FnvWriteAppend(FnvOffsetBasis, magic + fromAddress + fp + toAddress, tp);
    FnvWriteAppend(FnvOffsetBasis, magic + fromAddress + fp + toAddress + tp, pl);
    var h := FnvWrite(FnvOffsetBasis, magic);
    var h := FnvWrite(h, fromAddress);
    var h := FnvWrite(h, fp);
    var h := FnvWrite(h, toAddress);
    var h := FnvWrite(h, tp);
    FnvWrite(h, pl)
  }

  function Chonkle(magic: seq<byte>, fromAddress: seq<byte>, fromPort: u16,
                   toAddress: seq<byte>, toPort: u16, packetLength: int): (t: seq<byte>)
    ensures ChonkleImage(t)
  {
    ChonkleOfHashBytes(HashBytes(ChonkleHash(magic, fromAddress, fromPort, toAddress, toPort, packetLength)))
  }
}
