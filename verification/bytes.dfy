/** Bytes, the fixed-width unsigned integers of the wire format, their
    little-endian encoding, and the "overwrite a window of a buffer" operation
    every writer is built on.

    A byte is a `bv8`, so that the tag generators can use Go's bitwise
    operators on it directly. The scalar types are natural numbers below
    their bound: Go's `uint16`, `uint32` and `uint64`. */
module Bytes {

  type byte = bv8

  type u16 = v: nat | v < 0x1_0000
  type u32 = v: nat | v < 0x1_0000_0000
  type u64 = v: nat | v < 0x1_0000_0000_0000_0000

  /** Go's `uint32(n)` conversion of an `int`: truncation modulo 2^32
      (Dafny's `%` is Euclidean, which is exactly two's-complement truncation). */
  function U32Of(n: int): u32
  {
    n % 0x1_0000_0000
  }

  /** 256 to the power `w`: one more than the largest value `w` bytes hold. */
  function Pow256(w: nat): (p: nat)
    ensures p > 0
  {
    if w == 0 then 1 else 256 * Pow256(w - 1)
  }

  lemma Pow256Widths()
    ensures Pow256(1) == 0x100
    ensures Pow256(2) == 0x1_0000
    ensures Pow256(4) == 0x1_0000_0000
    ensures Pow256(8) == 0x1_0000_0000_0000_0000
  {
    assert Pow256(2) == 256 * Pow256(1);
    assert Pow256(4) == 256 * (256 * Pow256(2));
    assert Pow256(8) == 256 * (256 * (256 * (256 * Pow256(4))));
  }

  /** The `w`-byte little-endian encoding of `v` (Go's
      `binary.LittleEndian.PutUintN`): least significant byte first. */
  function LE(v: nat, w: nat): (r: seq<byte>)
    requires v < Pow256(w)
    ensures |r| == w
  {
    if w == 0 then []
    else
      assert v / 256 < Pow256(w - 1) by { DivBound(v, Pow256(w - 1)); }
      [(v % 256) as byte] + LE(v / 256, w - 1)
  }

  /** The value of a little-endian byte string (Go's
      `binary.LittleEndian.UintN`): it always fits in `|s|` bytes. */
  function FromLE(s: seq<byte>): (v: nat)
    ensures v < Pow256(|s|)
  {
    if |s| == 0 then 0
    else
      var rest := FromLE(s[1..]);
      assert s[0] as nat + 256 * rest < Pow256(|s|) by {
        assert rest + 1 <= Pow256(|s| - 1);
        MulMono(rest + 1, Pow256(|s| - 1));
      }
      s[0] as nat + 256 * rest
  }

  lemma DivBound(v: nat, p: nat)
    requires v < 256 * p
    ensures v / 256 < p
  {
  }

  /** Converting a small number to a byte and back is the identity. The
      split by sixteens keeps each case a small bit-vector problem. */
  lemma ByteOfSmall(x: nat)
    requires x < 256
    ensures (x as byte) as nat == x
  {
    if x < 16 {
    } else if x < 32 {
    } else if x < 48 {
    } else if x < 64 {
    } else if x < 80 {
    } else if x < 96 {
    } else if x < 112 {
    } else if x < 128 {
    } else if x < 144 {
    } else if x < 160 {
    } else if x < 176 {
    } else if x < 192 {
    } else if x < 208 {
    } else if x < 224 {
    } else if x < 240 {
    } else {
    }
  }

  lemma NatOfByte(b: byte)
    ensures b as nat < 256 && (b as nat) as byte == b
  {
  }

  /** The low byte and the rest of `b + 256 * rest`. */
  lemma SplitByte(b: byte, rest: nat)
    ensures (b as nat + 256 * rest) % 256 == b as nat
    ensures (b as nat + 256 * rest) / 256 == rest
    ensures ((b as nat + 256 * rest) % 256) as byte == b
  {
    NatOfByte(b);
  }

  lemma MulMono(a: nat, b: nat)
    requires a <= b
    ensures 256 * a <= 256 * b
  {
  }

  /** Decoding an encoding gives the value back. */
  lemma {:induction false} LERoundTrip(v: nat, w: nat)
    requires v < Pow256(w)
    ensures FromLE(LE(v, w)) == v
  {
    if w > 0 {
      DivBound(v, Pow256(w - 1));
      var r := LE(v, w);
      assert r[1..] == LE(v / 256, w - 1);
      LERoundTrip(v / 256, w - 1);
      assert r[0] as nat == v % 256 by { ByteOfSmall(v % 256); }
      assert FromLE(r) == v % 256 + 256 * (v / 256);
    }
  }

  /** Encoding a decoded byte string at its own width gives the bytes back:
      the encoding is a bijection between `w`-byte strings and `[0, 256^w)`. */
  lemma {:induction false} FromLERoundTrip(s: seq<byte>)
    ensures LE(FromLE(s), |s|) == s
  {
    if |s| > 0 {
      var rest := FromLE(s[1..]);
      var v := s[0] as nat + 256 * rest;
      assert FromLE(s) == v;
      LECons(s[0], rest, |s| - 1);
      FromLERoundTrip(s[1..]);
      assert LE(rest, |s| - 1) == s[1..];
      assert LE(v, |s|) == [s[0]] + s[1..];
      assert [s[0]] + s[1..] == s;
    }
  }

  /** Encoding `b + 256 * rest` puts `b` first and `rest` after it. */
  lemma LECons(b: byte, rest: nat, w: nat)
    requires rest < Pow256(w)
    ensures b as nat + 256 * rest < Pow256(w + 1)
    ensures LE(b as nat + 256 * rest, w + 1) == [b] + LE(rest, w)
  {
    SplitByte(b, rest);
  }

  /** `binary.LittleEndian.PutUint16`, `PutUint32` and `PutUint64`: the
      fixed-width encodings of the scalar types, which decode back to the
      value. */
  function LE2(v: u16): (r: seq<byte>)
    ensures |r| == 2 && FromLE(r) == v
  {
    Pow256Widths();
    LERoundTrip(v, 2);
    LE(v, 2)
  }

  function LE4(v: u32): (r: seq<byte>)
    ensures |r| == 4 && FromLE(r) == v
  {
    Pow256Widths();
    LERoundTrip(v, 4);
    LE(v, 4)
  }

  function LE8(v: u64): (r: seq<byte>)
    ensures |r| == 8 && FromLE(r) == v
  {
    Pow256Widths();
    LERoundTrip(v, 8);
    LE(v, 8)
  }

  /** `data` with the window starting at `at` replaced by `bytes`: the effect
      of storing `bytes` through Go indexing at `data[at]`, `data[at+1]`, ... */
  function Overwrite(data: seq<byte>, at: nat, bytes: seq<byte>): (r: seq<byte>)
    requires at + |bytes| <= |data|
    ensures |r| == |data|
    ensures r[at..at + |bytes|] == bytes
    ensures forall k :: 0 <= k < |data| && !(at <= k < at + |bytes|) ==> r[k] == data[k]
  {
    data[..at] + bytes + data[at + |bytes|..]
  }

  /** Overwriting leaves every window outside the written one as it was. */
  lemma OverwriteKeeps(data: seq<byte>, at: nat, bytes: seq<byte>, lo: nat, hi: nat)
    requires at + |bytes| <= |data|
    requires lo <= hi <= |data|
    requires hi <= at || at + |bytes| <= lo
    ensures Overwrite(data, at, bytes)[lo..hi] == data[lo..hi]
  {
    var r := Overwrite(data, at, bytes);
    assert forall k :: 0 <= k < hi - lo ==> r[lo..hi][k] == r[lo + k] == data[lo + k];
  }
}
