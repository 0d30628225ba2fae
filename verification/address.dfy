/** The address codec: an IP address and port in a fixed 19-byte slot.

    Byte 0 is the tag (0 none, 1 IPv4, 2 IPv6). IPv4 puts the four address
    bytes at 1..5 and the port, low byte first, at 5..7; IPv6 puts the sixteen
    address bytes at 1..17 and the port at 17..19. Go's `net.UDPAddr` is
    abstracted to `Address`; `IP.To4` is modelled by `Canonical`, which turns
    an IPv4-mapped IPv6 address into the IPv4 address it carries. */
module AddressCodec {
  import opened Bytes

  const IPAddressNone: byte := 0
  const IPAddressIPv4: byte := 1
  const IPAddressIPv6: byte := 2
  const AddressSize: nat := 19

  type IPv4Bytes = s: seq<byte> | |s| == 4 witness [0, 0, 0, 0]
  type IPv6Bytes = s: seq<byte> | |s| == 16 witness seq(16, _ => 0)

  datatype Address = NoAddress | V4(ip4: IPv4Bytes, port: u16) | V6(ip6: IPv6Bytes, port: u16)

  /** `::ffff:a.b.c.d`: ten zero bytes, two 0xFF bytes, then the IPv4 address. */
  predicate IsIPv4Mapped(ip: IPv6Bytes)
  {
    ip[..10] == seq(10, _ => 0) && ip[10] == 0xFF && ip[11] == 0xFF
  }

  /** The address as `IP.To4` classifies it: an IPv4-mapped IPv6 address is
      an IPv4 address. */
  function Canonical(a: Address): (c: Address)
    ensures c.NoAddress? <==> a.NoAddress?
    ensures a.V4? ==> c == a
    ensures a.V6? ==> c.port == a.port
    ensures a.V6? && c.V6? ==> c == a
    ensures c.V4? ==> (a.V4? || (a.V6? && IsIPv4Mapped(a.ip6) && c.ip4 == a.ip6[12..]))
    ensures c.V6? ==> !IsIPv4Mapped(c.ip6)
  {
    match a
    case V6(ip, port) => if IsIPv4Mapped(ip) then V4(ip[12..], port) else a
    case _ => a
  }

  /** How many leading bytes of the slot `WriteAddress` touches (Go panics
      on a shorter buffer). */
  function SlotBytes(a: Address): nat
  {
    match Canonical(a)
    case NoAddress => 1
    case V4(_, _) => 7
    case V6(_, _) => AddressSize
  }

  /** Fills the slot at the start of `buffer`. An absent address writes only
      the tag byte. */
  function WriteAddress(buffer: seq<byte>, a: Address): (r: seq<byte>)
    requires SlotBytes(a) <= |buffer|
    ensures |r| == |buffer|
    ensures forall k :: SlotBytes(a) <= k < |buffer| ==> r[k] == buffer[k]
    ensures a.NoAddress? ==> r[0] == IPAddressNone
    ensures Canonical(a).V4? ==>
      && r[0] == IPAddressIPv4
      && r[1..5] == Canonical(a).ip4
      && FromLE(r[5..7]) == a.port
    ensures Canonical(a).V6? ==>
      && r[0] == IPAddressIPv6
      && r[1..17] == a.ip6
      && FromLE(r[17..19]) == a.port
  {
    Pow256Widths();
    match Canonical(a)
    case NoAddress =>
      Overwrite(buffer, 0, [IPAddressNone])
    case V4(ip, port) =>
      var withTag := Overwrite(buffer, 0, [IPAddressIPv4]);
      var withIP := Overwrite(withTag, 1, ip);
      OverwriteKeeps(withIP, 5, LE2(port), 1, 5);
      Overwrite(withIP, 5, LE2(port))
    case V6(ip, port) =>
      var withTag := Overwrite(buffer, 0, [IPAddressIPv6]);
      var withIP := Overwrite(withTag, 1, ip);
      OverwriteKeeps(withIP, 17, LE2(port), 1, 17);
      Overwrite(withIP, 17, LE2(port))
  }

  /** The buffer lengths for which `ReadAddress` does not index past the end:
      one byte for the tag, seven for IPv4, the whole slot for IPv6. */
  predicate Readable(buffer: seq<byte>)
  {
    && |buffer| >= 1
    && (buffer[0] == IPAddressIPv4 ==> |buffer| >= 7)
    && (buffer[0] == IPAddressIPv6 ==> |buffer| >= AddressSize)
  }

  /** Decodes the slot. Any tag other than 1 or 2 is "no address", not an
      error. The IPv6 address is bytes 1..17 (see `ReadAddressAsWritten` for
      what the Go code returns instead). */
  function ReadAddress(buffer: seq<byte>): (a: Address)
    requires Readable(buffer)
    ensures a.NoAddress? <==> buffer[0] != IPAddressIPv4 && buffer[0] != IPAddressIPv6
    ensures a.V4? ==> buffer[0] == IPAddressIPv4 && a.ip4 == buffer[1..5] && LE2(a.port) == buffer[5..7]
    ensures a.V6? ==> buffer[0] == IPAddressIPv6 && a.ip6 == buffer[1..17] && LE2(a.port) == buffer[17..19]
  {
    Pow256Widths();
    if buffer[0] == IPAddressIPv4 then
      FromLERoundTrip(buffer[5..7]);
      V4(buffer[1..5], FromLE(buffer[5..7]))
    else if buffer[0] == IPAddressIPv6 then
      FromLERoundTrip(buffer[17..19]);
      V6(buffer[1..17], FromLE(buffer[17..19]))
    else
      NoAddress
  }

  /** Reading a written slot gives the address back, as `To4` sees it. */
  lemma AddressRoundTrip(buffer: seq<byte>, a: Address)
    requires SlotBytes(a) <= |buffer|
    ensures Readable(WriteAddress(buffer, a))
    ensures ReadAddress(WriteAddress(buffer, a)) == Canonical(a)
  {
    Pow256Widths();
    var w := WriteAddress(buffer, a);
    match Canonical(a)
    case NoAddress =>
    case V4(ip, port) =>
      LERoundTrip(port, 2);
      FromLERoundTrip(w[5..7]);
    case V6(ip, port) =>
      LERoundTrip(port, 2);
      FromLERoundTrip(w[17..19]);
  }

  /** Every address that is not an IPv4-mapped IPv6 address survives the
      round trip unchanged; in particular "no address" does. */
  lemma AddressRoundTripExact(buffer: seq<byte>, a: Address)
    requires SlotBytes(a) <= |buffer|
    requires !(a.V6? && IsIPv4Mapped(a.ip6))
    ensures ReadAddress(WriteAddress(buffer, a)) == a
  {
    AddressRoundTrip(buffer, a);
  }

  /** `203.0.113.5:40000` occupies bytes 1, 203, 0, 113, 5, 0x40, 0x9C. */
  lemma IPv4SlotExample(buffer: seq<byte>)
    requires |buffer| == AddressSize
    ensures WriteAddress(buffer, V4([203, 0, 113, 5], 40000))[..7] == [1, 203, 0, 113, 5, 0x40, 0x9C]
  {
    Pow256Widths();
    var a := V4([203, 0, 113, 5], 40000);
    var w := WriteAddress(buffer, a);
    assert LE(156, 1) == [0x9C] by { assert LE(0, 0) == []; }
    assert LE(40000, 2) == [0x40] + LE(156, 1);
    assert w[..7] == [IPAddressIPv4] + a.ip4 + LE2(40000);
  }

  // ------------------------------------------------ the IPv6 read as written

  /** What Go's `ReadAddress` returns: nil, or a `net.UDPAddr` whose IP is a
      byte string. IPv4 comes back in the 16-byte IPv4-in-IPv6 form that
      `net.IPv4` builds; IPv6 comes back as the whole tail `buffer[1:]`. */
  datatype NetAddr = Nil | UDPAddr(ip: seq<byte>, port: u16)

  function ReadAddressAsWritten(buffer: seq<byte>): (r: NetAddr)
    requires Readable(buffer)
    ensures r.Nil? <==> ReadAddress(buffer).NoAddress?
    ensures r.UDPAddr? ==> r.port == ReadAddress(buffer).port
    ensures buffer[0] == IPAddressIPv4 ==> |r.ip| == 16 && IsIPv4Mapped(r.ip) && r.ip[12..] == buffer[1..5]
    ensures buffer[0] == IPAddressIPv6 ==> r.ip == buffer[1..]
  {
    Pow256Widths();
    if buffer[0] == IPAddressIPv4 then
      UDPAddr(seq(10, _ => 0) + [0xFF, 0xFF] + buffer[1..5], FromLE(buffer[5..7]))
    else if buffer[0] == IPAddressIPv6 then
      UDPAddr(buffer[1..], FromLE(buffer[17..19]))
    else
      Nil
  }

  /** Two IPv4-mapped addresses with the same last four bytes are equal. */
  lemma MappedEqual(a: IPv6Bytes, b: IPv6Bytes)
    requires IsIPv4Mapped(a) && IsIPv4Mapped(b) && a[12..] == b[12..]
    ensures a == b
  {
    assert forall k :: 0 <= k < 10 ==> a[k] == a[..10][k] == b[..10][k] == b[k];
    assert forall k :: 12 <= k < 16 ==> a[k] == a[12..][k - 12] == b[12..][k - 12] == b[k];
  }

  /** An IPv4-mapped IPv6 address is written as IPv4, and Go reads it back
      with `net.IPv4`, whose 16-byte form is the very address that was
      written: as Go sees it, the mapped address survives the round trip.
      Only `Address` tells the two forms apart. */
  lemma MappedIPv6ReadAsWrittenIsTheAddress(buffer: seq<byte>, ip: IPv6Bytes, port: u16)
    requires 7 <= |buffer|
    requires IsIPv4Mapped(ip)
    ensures ReadAddressAsWritten(WriteAddress(buffer, V6(ip, port))) == UDPAddr(ip, port)
  {
    var w := WriteAddress(buffer, V6(ip, port));
    AddressRoundTrip(buffer, V6(ip, port));
    var r := ReadAddressAsWritten(w);
    MappedEqual(r.ip, ip);
  }

  /** A 4-byte IPv4 address comes back from Go's read in the 16-byte mapped
      form `net.IPv4` builds: `net.IP.Equal` to the address written, but not
      the same byte string. */
  lemma IPv4ReadAsWrittenIsMappedForm(buffer: seq<byte>, ip: IPv4Bytes, port: u16)
    requires 7 <= |buffer|
    ensures var r := ReadAddressAsWritten(WriteAddress(buffer, V4(ip, port)));
            r == UDPAddr(seq(10, _ => 0) + [0xFF, 0xFF] + ip, port) && r.ip != ip
  {
    AddressRoundTrip(buffer, V4(ip, port));
  }

  /** The discrepancy: an IPv6 address written into a slot of `n >= 19`
      bytes reads back with an `n - 1`-byte IP (the sixteen address bytes,
      the two port bytes and whatever follows the slot), which is never a
      16-byte IP and so never the address that was written. */
  lemma IPv6ReadAsWrittenIsNotTheAddress(buffer: seq<byte>, a: Address)
    requires AddressSize <= |buffer|
    requires a.V6? && !IsIPv4Mapped(a.ip6)
    ensures var r := ReadAddressAsWritten(WriteAddress(buffer, a));
            r.UDPAddr? && |r.ip| == |buffer| - 1 && r.ip != a.ip6
  {
    AddressRoundTrip(buffer, a);
  }
}
