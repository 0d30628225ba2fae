/** The cursor codec: fixed-width little-endian writes and reads of bool,
    uint8, uint16, uint32 and uint64, length-prefixed strings and raw byte
    blocks, over a buffer with an explicit cursor.

    Writes trust their caller: an index past the end of the buffer or an
    over-long string is a Go panic, so it is a precondition here. Reads never
    trust their input: they return `Rejected` with the cursor the Go code
    leaves behind, and the caller's output variable is untouched because a
    rejection carries no value. */
module Cursor {
  import opened Bytes

  /** Result of a read: the decoded value and the advanced cursor, or a
      rejection carrying the cursor as the Go function leaves it. */
  datatype Decoded<T> = Decoded(value: T, next: nat) | Rejected(next: nat)

  /** Buffer and cursor after a write. */
  datatype Written = Written(data: seq<byte>, index: nat)

  /** A write of `w` bytes at `index` keeps the buffer's length, advances the
      cursor by `w` and leaves every byte outside `[index, index + w)` alone. */
  ghost predicate ChangesOnly(data: seq<byte>, index: nat, w: nat, r: Written)
  {
    && |r.data| == |data|
    && r.index == index + w
    && forall k :: 0 <= k < |data| && !(index <= k < index + w) ==> r.data[k] == data[k]
  }

  // ---------------------------------------------------------------- writes

  function WriteBool(data: seq<byte>, index: nat, value: bool): (r: Written)
    requires index + 1 <= |data|
    ensures ChangesOnly(data, index, 1, r)
    ensures r.data[index] <= 1 && (r.data[index] != 0 <==> value)
  {
    Written(Overwrite(data, index, [if value then 1 else 0]), index + 1)
  }

  function WriteUint8(data: seq<byte>, index: nat, value: byte): (r: Written)
    requires index + 1 <= |data|
    ensures ChangesOnly(data, index, 1, r)
    ensures r.data[index] == value
  {
    Written(Overwrite(data, index, [value]), index + 1)
  }

  function WriteUint16(data: seq<byte>, index: nat, value: u16): (r: Written)
    requires index + 2 <= |data|
    ensures ChangesOnly(data, index, 2, r)
    ensures FromLE(r.data[index..index + 2]) == value
  {
    Written(Overwrite(data, index, LE2(value)), index + 2)
  }

  function WriteUint32(data: seq<byte>, index: nat, value: u32): (r: Written)
    requires index + 4 <= |data|
    ensures ChangesOnly(data, index, 4, r)
    ensures FromLE(r.data[index..index + 4]) == value
  {
    Written(Overwrite(data, index, LE4(value)), index + 4)
  }

  function WriteUint64(data: seq<byte>, index: nat, value: u64): (r: Written)
    requires index + 8 <= |data|
    ensures ChangesOnly(data, index, 8, r)
    ensures FromLE(r.data[index..index + 8]) == value
  {
    Written(Overwrite(data, index, LE8(value)), index + 8)
  }

  /** The length the Go code writes for a string: `uint32(len(value))`. */
  function StringLength(value: seq<byte>): u32
  {
    U32Of(|value|)
  }

  /** A string is a little-endian uint32 length prefix followed by its bytes.
      A length above `maxStringLength` panics; so does a buffer too short for
      prefix and bytes. */
  function WriteString(data: seq<byte>, index: nat, value: seq<byte>, maxStringLength: u32): (r: Written)
    requires StringLength(value) <= maxStringLength
    requires index + 4 + StringLength(value) <= |data|
    ensures ChangesOnly(data, index, 4 + StringLength(value), r)
    ensures FromLE(r.data[index..index + 4]) == StringLength(value)
    ensures r.data[index + 4..r.index] == value[..StringLength(value)]
    ensures |value| < 0x1_0000_0000 ==> r.data[index + 4..r.index] == value
  {
    var n := StringLength(value);
    assert n <= |value| by { TruncationShrinks(|value|); }
    var prefix := LE4(n);
    var bytes := prefix + value[..n];
    var out := Overwrite(data, index, bytes);
    assert out[index..index + 4] == prefix by {
      assert out[index..index + 4] == out[index..index + |bytes|][..4];
    }
    assert out[index + 4..index + 4 + n] == value[..n] by {
      assert out[index + 4..index + 4 + n] == out[index..index + |bytes|][4..];
    }
    Written(out, index + 4 + n)
  }

  lemma TruncationShrinks(n: nat)
    ensures U32Of(n) <= n
    ensures n < 0x1_0000_0000 ==> U32Of(n) == n
  {
  }

  /** Copies the first `numBytes` bytes of `value`; a negative count copies
      nothing, as Go's loop does not run. */
  function WriteBytes(data: seq<byte>, index: nat, value: seq<byte>, numBytes: int): (r: Written)
    requires numBytes <= |value|
    requires numBytes <= 0 || index + numBytes <= |data|
    ensures numBytes <= 0 ==> r == Written(data, index)
    ensures numBytes > 0 ==> ChangesOnly(data, index, numBytes, r)
    ensures numBytes > 0 ==> r.data[index..r.index] == value[..numBytes]
  {
    if numBytes <= 0 then Written(data, index)
    else Written(Overwrite(data, index, value[..numBytes]), index + numBytes)
  }

  // ----------------------------------------------------------------- reads

  /** Any nonzero byte reads as `true`. */
  function ReadBool(data: seq<byte>, index: nat): (r: Decoded<bool>)
    ensures r.Rejected? <==> index + 1 > |data|
    ensures r.Rejected? ==> r.next == index
    ensures r.Decoded? ==> r.next == index + 1 && (r.value <==> data[index] != 0)
  {
    if index + 1 > |data| then Rejected(index)
    else Decoded(data[index] > 0, index + 1)
  }

  function ReadUint8(data: seq<byte>, index: nat): (r: Decoded<byte>)
    ensures r.Rejected? <==> index + 1 > |data|
    ensures r.Rejected? ==> r.next == index
    ensures r.Decoded? ==> r.next == index + 1 && r.value == data[index]
  {
    if index + 1 > |data| then Rejected(index)
    else Decoded(data[index], index + 1)
  }

  function ReadUint16(data: seq<byte>, index: nat): (r: Decoded<u16>)
    ensures r.Rejected? <==> index + 2 > |data|
    ensures r.Rejected? ==> r.next == index
    ensures r.Decoded? ==> r.next == index + 2 && LE2(r.value) == data[index..index + 2]
  {
    Pow256Widths();
    if index + 2 > |data| then Rejected(index)
    else
      FromLERoundTrip(data[index..index + 2]);
      Decoded(FromLE(data[index..index + 2]), index + 2)
  }

  function ReadUint32(data: seq<byte>, index: nat): (r: Decoded<u32>)
    ensures r.Rejected? <==> index + 4 > |data|
    ensures r.Rejected? ==> r.next == index
    ensures r.Decoded? ==> r.next == index + 4 && LE4(r.value) == data[index..index + 4]
  {
    Pow256Widths();
    if index + 4 > |data| then Rejected(index)
    else
      FromLERoundTrip(data[index..index + 4]);
      Decoded(FromLE(data[index..index + 4]), index + 4)
  }

  function ReadUint64(data: seq<byte>, index: nat): (r: Decoded<u64>)
    ensures r.Rejected? <==> index + 8 > |data|
    ensures r.Rejected? ==> r.next == index
    ensures r.Decoded? ==> r.next == index + 8 && LE8(r.value) == data[index..index + 8]
  {
    Pow256Widths();
    if index + 8 > |data| then Rejected(index)
    else
      FromLERoundTrip(data[index..index + 8]);
      Decoded(FromLE(data[index..index + 8]), index + 8)
  }

  /** Reads the uint32 length prefix, then that many bytes. A truncated
      prefix leaves the cursor where it was; a declared length above the
      maximum or above the remaining bytes is rejected with the cursor
      already past the prefix. */
  function ReadString(data: seq<byte>, index: nat, maxStringLength: u32): (r: Decoded<seq<byte>>)
    ensures index + 4 > |data| ==> r == Rejected(index)
    ensures index + 4 <= |data| ==>
      var n := FromLE(data[index..index + 4]);
      && (r.Rejected? <==> n > maxStringLength || index + 4 + n > |data|)
      && (r.Rejected? ==> r.next == index + 4)
      && (r.Decoded? ==> r.next == index + 4 + n && r.value == data[index + 4..r.next])
    ensures r.Decoded? ==> |r.value| <= maxStringLength
  {
    match ReadUint32(data, index)
    case Rejected(next) => Rejected(next)
    case Decoded(n, next) =>
      if n > maxStringLength then Rejected(next)
      else if next + n > |data| then Rejected(next)
      else Decoded(data[next..next + n], next + n)
  }

  function ReadBytes(data: seq<byte>, index: nat, bytes: u32): (r: Decoded<seq<byte>>)
    ensures r.Rejected? <==> index + bytes > |data|
    ensures r.Rejected? ==> r.next == index
    ensures r.Decoded? ==>
      && r.next == index + bytes
      && |r.value| == bytes
      && forall i :: 0 <= i < bytes ==> r.value[i] == data[index + i]
  {
    if index + bytes > |data| then Rejected(index)
    else Decoded(data[index..index + bytes], index + bytes)
  }

  // ------------------------------------------------------ read after write

  /** Reading back at the original cursor returns the written value and the
      same advance, for every scalar type. */
  lemma ReadBoolAfterWrite(data: seq<byte>, index: nat, value: bool)
    requires index + 1 <= |data|
    ensures ReadBool(WriteBool(data, index, value).data, index) == Decoded(value, index + 1)
  {
  }

  lemma ReadUint8AfterWrite(data: seq<byte>, index: nat, value: byte)
    requires index + 1 <= |data|
    ensures ReadUint8(WriteUint8(data, index, value).data, index) == Decoded(value, index + 1)
  {
  }

  lemma ReadUint16AfterWrite(data: seq<byte>, index: nat, value: u16)
    requires index + 2 <= |data|
    ensures ReadUint16(WriteUint16(data, index, value).data, index) == Decoded(value, index + 2)
  {
    var w := WriteUint16(data, index, value).data;
    assert FromLE(w[index..index + 2]) == value;
  }

  lemma ReadUint32AfterWrite(data: seq<byte>, index: nat, value: u32)
    requires index + 4 <= |data|
    ensures ReadUint32(WriteUint32(data, index, value).data, index) == Decoded(value, index + 4)
  {
    var w := WriteUint32(data, index, value).data;
    assert FromLE(w[index..index + 4]) == value;
  }

  lemma ReadUint64AfterWrite(data: seq<byte>, index: nat, value: u64)
    requires index + 8 <= |data|
    ensures ReadUint64(WriteUint64(data, index, value).data, index) == Decoded(value, index + 8)
  {
    var w := WriteUint64(data, index, value).data;
    assert FromLE(w[index..index + 8]) == value;
  }

  /** A string written under a maximum is read back whole under the same
      maximum, and the cursor ends where the writer's did. */
  lemma ReadStringAfterWrite(data: seq<byte>, index: nat, value: seq<byte>, maxStringLength: u32)
    requires |value| <= maxStringLength
    requires index + 4 + |value| <= |data|
    ensures ReadString(WriteString(data, index, value, maxStringLength).data, index, maxStringLength)
            == Decoded(value, index + 4 + |value|)
  {
    var w := WriteString(data, index, value, maxStringLength);
    TruncationShrinks(|value|);
    assert StringLength(value) == |value|;
    assert FromLE(w.data[index..index + 4]) == |value|;
  }

  lemma ReadBytesAfterWrite(data: seq<byte>, index: nat, value: seq<byte>)
    requires |value| < 0x1_0000_0000
    requires index + |value| <= |data|
    ensures ReadBytes(WriteBytes(data, index, value, |value|).data, index, |value|)
            == Decoded(value, index + |value|)
  {
    assert value[..|value|] == value;
  }

  /** A later write past the end of an earlier field does not disturb it:
      a uint32 written first is still read back after a uint16 is written
      behind it. This is what makes sequential packing of fields sound. */
  lemma ReadUint32SurvivesLaterWrite(data: seq<byte>, index: nat, a: u32, b: u16)
    requires index + 6 <= |data|
    ensures var w1 := WriteUint32(data, index, a);
            var w2 := WriteUint16(w1.data, w1.index, b);
            ReadUint32(w2.data, index) == Decoded(a, index + 4)
            && ReadUint16(w2.data, index + 4) == Decoded(b, index + 6)
  {
    var w1 := WriteUint32(data, index, a);
    var w2 := WriteUint16(w1.data, w1.index, b);
    assert w2.data[index..index + 4] == w1.data[index..index + 4];
    ReadUint32AfterWrite(data, index, a);
    ReadUint16AfterWrite(w1.data, w1.index, b);
  }
}
