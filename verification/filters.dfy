/** The two packet filters. A packet of `packetLength` bytes carries a type
    byte at 0, a Chonkle tag at [1, 16), its payload, and a Pittle tag in its
    last two bytes.

    The basic filter only checks byte ranges and needs no secret; the advanced
    filter recomputes both tags from the shared magic and the endpoints and
    compares them byte for byte. Both answer accept or reject and nothing else. */
module Filters {
  import opened Bytes
  import opened Tags

  const MinPacketLength: int := 18

  /** The type/version byte range. It is not produced by either tag. */
  predicate ValidPacketType(b: byte)
  {
    0x01 <= b <= 0x63
  }

  /** The static range checks of bytes 0, 1, 2, 3 and 5 through 15, in the
      order the Go code applies them; byte 4 is never looked at. */
  function BasicPacketFilter(data: seq<byte>, packetLength: int): (r: bool)
    requires packetLength >= MinPacketLength ==> |data| >= 16
    ensures packetLength < MinPacketLength ==> !r
    ensures r ==> ValidPacketType(data[0])
  {
    if packetLength < MinPacketLength then false
    else if data[0] < 0x01 || data[0] > 0x63 then false
    else if data[1] < 0x2A || data[1] > 0x2D then false
    else if data[2] < 0xC8 || data[2] > 0xE7 then false
    else if data[3] < 0x05 || data[3] > 0x44 then false
    else if data[5] < 0x4E || data[5] > 0x51 then false
    else if data[6] < 0x60 || data[6] > 0xDF then false
    else if data[7] < 0x64 || data[7] > 0xE3 then false
    else if data[8] != 0x07 && data[8] != 0x4F then false
    else if data[9] != 0x25 && data[9] != 0x53 then false
    else if data[10] < 0x7C || data[10] > 0x83 then false
    else if data[11] < 0xAF || data[11] > 0xB6 then false
    else if data[12] < 0x21 || data[12] > 0x60 then false
    else if data[13] != 0x61 && data[13] != 0x05 && data[13] != 0x2B && data[13] != 0x0D then false
    else if data[14] < 0xD2 || data[14] > 0xF1 then false
    else if data[15] < 0x11 || data[15] > 0x90 then false
    else true
  }

  /** The basic filter's ranges in tag coordinates (tag byte i is packet
      byte i + 1). They are Chonkle's ranges, except that tag byte 6 is
      allowed up to 227 where Chonkle stops at 163; tag byte 3 is free. */
  predicate BasicRanges(t: seq<byte>)
  {
    TagRanges(t, 227)
  }

  /** The chain of checks accepts exactly a long-enough packet with a valid
      type byte whose tag region lies in the basic ranges. */
  lemma BasicFilterMeaning(data: seq<byte>, packetLength: int)
    requires packetLength >= MinPacketLength ==> |data| >= 16
    ensures BasicPacketFilter(data, packetLength) <==>
      && packetLength >= MinPacketLength
      && ValidPacketType(data[0])
      && BasicRanges(data[1..16])
  {
    if packetLength >= MinPacketLength {
      var t := data[1..16];
      assert forall k :: 0 <= k < 15 ==> t[k] == data[k + 1];
    }
  }

  /** Every Chonkle tag lies in the basic ranges. */
  lemma ChonkleRangesWithinBasic(t: seq<byte>)
    requires ChonkleRanges(t)
    ensures BasicRanges(t)
  {
  }

  /** The basic filter reads only bytes 0..16 other than byte 4: its verdict
      ignores byte 4, the payload and the Pittle tag. */
  lemma BasicFilterIgnoresByte4AndTail(data: seq<byte>, data': seq<byte>, packetLength: int)
    requires |data| >= 16 && |data'| >= 16
    requires forall k :: 0 <= k < 16 && k != 4 ==> data[k] == data'[k]
    ensures BasicPacketFilter(data, packetLength) == BasicPacketFilter(data', packetLength)
  {
    BasicFilterMeaning(data, packetLength);
    BasicFilterMeaning(data', packetLength);
    var t, t' := data[1..16], data'[1..16];
    assert forall k :: 0 <= k < 15 && k != 3 ==> t[k] == t'[k] by {
      forall k | 0 <= k < 15 && k != 3
        ensures t[k] == t'[k]
      {
        assert t[k] == data[k + 1] && t'[k] == data'[k + 1];
      }
    }
    assert data[0] == data'[0];
    assert BasicRanges(t) == BasicRanges(t');
  }

  /** Soundness: every packet with a valid type byte whose bytes [1, 16) hold
      any Chonkle tag passes the basic filter. The filter's ranges contain
      Chonkle's, so it never drops a correctly stamped packet. */
  lemma BasicFilterAcceptsChonkleTags(data: seq<byte>, packetLength: int)
    requires packetLength >= MinPacketLength && |data| >= 16
    requires ValidPacketType(data[0])
    requires ChonkleRanges(data[1..16])
    ensures BasicPacketFilter(data, packetLength)
  {
    ChonkleRangesWithinBasic(data[1..16]);
    BasicFilterMeaning(data, packetLength);
  }

  /** The filter is not complete: it admits headers no hash produces. Byte 7
      (tag byte 6) is accepted up to 0xE3, but Chonkle puts at most 163 there. */
  lemma BasicFilterAdmitsNonChonkleHeader()
    ensures var data: seq<byte> := [1, 42, 200, 5, 0, 78, 96, 164, 79, 37, 124, 175, 33, 97, 210, 17, 0, 0];
            BasicPacketFilter(data, 18) && !ChonkleRanges(data[1..16])
  {
    var data: seq<byte> := [1, 42, 200, 5, 0, 78, 96, 164, 79, 37, 124, 175, 33, 97, 210, 17, 0, 0];
    assert data[1..16][6] == 164;
  }

  /** Recomputes both tags for this (magic, from, to, length) context and
      compares them with bytes [1, 16) and the last two bytes. */
  function AdvancedPacketFilter(data: seq<byte>, magic: seq<byte>, fromAddress: seq<byte>, fromPort: u16,
                                toAddress: seq<byte>, toPort: u16, packetLength: int): (r: bool)
    requires packetLength >= MinPacketLength ==> packetLength <= |data|
    ensures r <==>
      && packetLength >= MinPacketLength
      && data[1..16] == Chonkle(magic, fromAddress, fromPort, toAddress, toPort, packetLength)
      && data[packetLength - 2..packetLength] == Pittle(fromAddress, fromPort, toAddress, toPort, packetLength)
  {
    if packetLength < MinPacketLength then false
    else
      var a := Chonkle(magic, fromAddress, fromPort, toAddress, toPort, packetLength);
      var b := Pittle(fromAddress, fromPort, toAddress, toPort, packetLength);
      if a != data[1..16] then false
      else if b != data[packetLength - 2..packetLength] then false
      else true
  }

  /** What a sender does before transmitting: Chonkle into [1, 16), Pittle
      into the last two bytes. */
  function Stamp(data: seq<byte>, magic: seq<byte>, fromAddress: seq<byte>, fromPort: u16,
                 toAddress: seq<byte>, toPort: u16, packetLength: int): (r: seq<byte>)
    requires MinPacketLength <= packetLength <= |data|
    ensures |r| == |data|
    ensures r[0] == data[0]
    ensures r[1..16] == Chonkle(magic, fromAddress, fromPort, toAddress, toPort, packetLength)
    ensures forall k :: 16 <= k < packetLength - 2 ==> r[k] == data[k]
    ensures r[packetLength - 2..packetLength] == Pittle(fromAddress, fromPort, toAddress, toPort, packetLength)
    ensures forall k :: packetLength <= k < |data| ==> r[k] == data[k]
  {
    var withChonkle := Overwrite(data, 1, Chonkle(magic, fromAddress, fromPort, toAddress, toPort, packetLength));
    var pittle := Pittle(fromAddress, fromPort, toAddress, toPort, packetLength);
    OverwriteKeeps(withChonkle, packetLength - 2, pittle, 1, 16);
    Overwrite(withChonkle, packetLength - 2, pittle)
  }

  /** A correctly stamped packet passes the advanced filter for its own
      context, whatever its type byte and payload. */
  lemma AdvancedFilterAcceptsStamped(data: seq<byte>, magic: seq<byte>, fromAddress: seq<byte>, fromPort: u16,
                                     toAddress: seq<byte>, toPort: u16, packetLength: int)
    requires MinPacketLength <= packetLength <= |data|
    ensures AdvancedPacketFilter(Stamp(data, magic, fromAddress, fromPort, toAddress, toPort, packetLength),
                                 magic, fromAddress, fromPort, toAddress, toPort, packetLength)
  {
  }

  /** Passing the advanced filter implies passing the basic one when the
      type byte is valid: the cheap filter never rejects an authentic packet. */
  lemma AdvancedImpliesBasic(data: seq<byte>, magic: seq<byte>, fromAddress: seq<byte>, fromPort: u16,
                             toAddress: seq<byte>, toPort: u16, packetLength: int)
    requires packetLength >= MinPacketLength ==> packetLength <= |data|
    requires AdvancedPacketFilter(data, magic, fromAddress, fromPort, toAddress, toPort, packetLength)
    requires ValidPacketType(data[0])
    ensures BasicPacketFilter(data, packetLength)
  {
    BasicFilterAcceptsChonkleTags(data, packetLength);
  }

  /** Changing any single byte of either tag region of an accepted packet
      makes the advanced filter reject it. */
  lemma AdvancedFilterRejectsTampered(data: seq<byte>, magic: seq<byte>, fromAddress: seq<byte>, fromPort: u16,
                                      toAddress: seq<byte>, toPort: u16, packetLength: int,
                                      k: nat, b: byte)
    requires packetLength >= MinPacketLength ==> packetLength <= |data|
    requires AdvancedPacketFilter(data, magic, fromAddress, fromPort, toAddress, toPort, packetLength)
    requires 1 <= k < 16 || packetLength - 2 <= k < packetLength
    requires b != data[k]
    ensures !AdvancedPacketFilter(data[k := b], magic, fromAddress, fromPort, toAddress, toPort, packetLength)
  {
    var tampered := data[k := b];
    if k < 16 {
      assert tampered[1..16][k - 1] != data[1..16][k - 1];
    } else {
      var lo := packetLength - 2;
      assert tampered[lo..packetLength][k - lo] != data[lo..packetLength][k - lo];
    }
  }

  /** The minimum length is a hard floor for both filters: a length of 17 is
      rejected whatever the buffer holds, however short, and so is a zero
      type byte. */
  lemma FiltersRejectShortOrUntyped(data: seq<byte>, magic: seq<byte>, fromAddress: seq<byte>, fromPort: u16,
                                    toAddress: seq<byte>, toPort: u16)
    ensures !BasicPacketFilter(data, 17)
    ensures !AdvancedPacketFilter(data, magic, fromAddress, fromPort, toAddress, toPort, 17)
    ensures |data| >= 16 && data[0] == 0 ==> !BasicPacketFilter(data, 18)
  {
  }
}
