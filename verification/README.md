# udpx wire core in Dafny

A model of the wire-protocol core of `modules/core/core.go`, with proofs about
it. The core has four parts:

- **Cursor codec** (`Cursor`, built on `Bytes`). Fixed-width little-endian
  writes and reads of bool, uint8, uint16, uint32 and uint64, plus
  length-prefixed strings and raw byte blocks, over a buffer with an
  explicit cursor.
  - Writes trust their caller. A Go panic (index past the end, over-long
    string) is a precondition.
  - Reads never trust their input. They return `Decoded(value, next)` or
    `Rejected(next)`, where `next` is the cursor as the Go function leaves
    it.
- **Address codec** (`AddressCodec`). An absent, IPv4 or IPv6 address with a
  port, in a fixed 19-byte slot: tag byte, address bytes, then the port low
  byte first. Go's `IP.To4` is modelled by `Canonical`. It classifies an
  IPv4-mapped IPv6 address as IPv4, and the model's round trip holds up to
  that classification. Go returns an IPv4 address in its 16-byte mapped
  form. That equals the written bytes only when a mapped address was given;
  a 4-byte IP comes back as a different, `net.IP.Equal`-equal byte string.
- **Tag generators** (`Tags`).
  - Pittle is a 2-byte tag made from the 16-bit wrapping sum of the endpoint
    bytes and the packet length.
  - Chonkle is a 15-byte tag. It takes the 64-bit FNV-1a hash (offset basis
    `0xcbf29ce484222325`, prime `0x100000001b3`) of
    magic ‖ fromAddress ‖ fromPort ‖ toAddress ‖ toPort ‖ uint32 length, and
    redistributes its eight bytes into fixed per-byte ranges.
  - `TagVectors` pins both tags for one concrete context: eight zero magic
    bytes, 1.2.3.4:1000 to 5.6.7.8:2000, length 20.
- **Packet filters** (`Filters`).
  - The basic filter checks fixed byte ranges and needs no secret.
  - The advanced filter recomputes both tags and compares them byte for
    byte.

Modelling conventions:

- Bytes are `bv8`, so Go's byte arithmetic (wrapping `+`, `-`, masks,
  shifts) is the bit-vector arithmetic.
- The FNV state is a `bv64`, so its multiplication wraps modulo 2^64 as in
  Go.
- `uint16`, `uint32` and `uint64` are natural numbers below their bounds.
- The 16-bit checksum wrap and Go's `uint32(packetLength)` truncation are
  written out as `% 2^16` and `% 2^32`.
- Buffers are `seq<bv8>`. A write returns the new buffer and cursor instead
  of mutating the caller's slice.

Four behaviours of the code are easy to misread:

- `ReadString` has already consumed the 4-byte length prefix when it
  rejects an over-long or over-running declared length. The rejected cursor
  is therefore `index + 4`, not `index`.
- The basic filter accepts bytes that no Chonkle tag produces. Packet byte 7
  may be up to `0xE3`, but Chonkle's byte there is at most 163. See
  `Filters.BasicFilterAdmitsNonChonkleHeader`.
- An IPv4-mapped IPv6 address is written with the IPv4 tag. Go reads it
  back with `net.IPv4`, whose 16-byte form is byte for byte the mapped
  address that was given (`AddressCodec.MappedIPv6ReadAsWrittenIsTheAddress`).
  The distinction between `V4` and a mapped `V6` comes from the model's
  `Address` type, which is why the corrected `ReadAddress` returns
  `Canonical(a)`.
- `ReadAddress` returns every byte after the tag as the IPv6 address (see
  Findings). The model's `ReadAddress` uses bytes 1..17, and the code as
  written is modelled beside it.

## Model

| member | source | states |
|---|---|---|
| Cursor.WriteBool | modules/core/core.go:54-62 | writes one byte, nonzero exactly when the value is true, touches nothing else and advances the cursor by 1 |
| Cursor.WriteUint8 | modules/core/core.go:64-67 | the byte at the cursor is the value; nothing else changes; cursor +1 |
| Cursor.WriteUint16 | modules/core/core.go:69-72 | the two bytes at the cursor decode little-endian to the value; nothing outside them changes; cursor +2 |
| Cursor.WriteUint32 | modules/core/core.go:74-77 | the four bytes at the cursor decode little-endian to the value; nothing outside them changes; cursor +4 |
| Cursor.WriteUint64 | modules/core/core.go:79-82 | the eight bytes at the cursor decode little-endian to the value; nothing outside them changes; cursor +8 |
| Cursor.WriteString | modules/core/core.go:94-105 | panics unless uint32(len) <= max; writes the 4-byte length prefix, then the first uint32(len) bytes (the whole string when it is shorter than 2^32); touches only those bytes; cursor +4+len |
| Cursor.WriteBytes | modules/core/core.go:107-112 | copies the first numBytes bytes of the value to the cursor and changes nothing else; a count <= 0 leaves buffer and cursor unchanged |
| Cursor.ReadBool | modules/core/core.go:137-150 | rejects exactly when index+1 > len with the cursor unchanged; otherwise any nonzero byte is true and the cursor advances by 1 |
| Cursor.ReadUint8 | modules/core/core.go:152-159 | rejects exactly when index+1 > len with the cursor unchanged; otherwise returns the byte, cursor +1 |
| Cursor.ReadUint16 | modules/core/core.go:161-168 | rejects exactly when index+2 > len with the cursor unchanged; otherwise the value's 2-byte encoding is the bytes at the cursor, cursor +2 |
| Cursor.ReadUint32 | modules/core/core.go:170-177 | rejects exactly when index+4 > len with the cursor unchanged; otherwise the value's 4-byte encoding is the bytes at the cursor, cursor +4 |
| Cursor.ReadUint64 | modules/core/core.go:179-186 | rejects exactly when index+8 > len with the cursor unchanged; otherwise the value's 8-byte encoding is the bytes at the cursor, cursor +8 |
| Cursor.ReadString | modules/core/core.go:206-224 | a truncated prefix is rejected with the cursor unchanged; a declared length above the maximum or above the remaining bytes is rejected with the cursor at index+4; otherwise returns exactly the declared bytes, never longer than the maximum |
| Cursor.ReadBytes | modules/core/core.go:226-236 | rejects exactly when index+count > len with the cursor unchanged; otherwise returns count bytes equal to data[index+i], cursor +count |
| Cursor.ReadBoolAfterWrite | modules/core/core.go:137-150 | reading a written bool at the original cursor gives the value back and the same advance |
| Cursor.ReadUint8AfterWrite | modules/core/core.go:152-159 | read-after-write returns the written uint8 and cursor +1 |
| Cursor.ReadUint16AfterWrite | modules/core/core.go:161-168 | read-after-write returns the written uint16 and cursor +2 |
| Cursor.ReadUint32AfterWrite | modules/core/core.go:170-177 | read-after-write returns the written uint32 and cursor +4 |
| Cursor.ReadUint64AfterWrite | modules/core/core.go:179-186 | read-after-write returns the written uint64 and cursor +8 |
| Cursor.ReadStringAfterWrite | modules/core/core.go:206-224 | a string written under a maximum is read back whole under the same maximum, ending at the writer's cursor |
| Cursor.ReadBytesAfterWrite | modules/core/core.go:226-236 | a block written with its own length is read back whole |
| Cursor.ReadUint32SurvivesLaterWrite | modules/core/core.go:69-77 | a uint16 written after a uint32 does not disturb it: both read back in sequence |
| Bytes.LE | modules/core/core.go:69-82 | the `w`-byte little-endian encoding of a value below 256^w has exactly `w` bytes |
| Bytes.FromLE | modules/core/core.go:161-186 | the value read from a little-endian byte string fits in that many bytes: below 256^len |
| Bytes.LE2 | modules/core/core.go:69-72 | PutUint16: two bytes that decode little-endian to the value |
| Bytes.LE4 | modules/core/core.go:74-77 | PutUint32: four bytes that decode little-endian to the value |
| Bytes.LE8 | modules/core/core.go:79-82 | PutUint64: eight bytes that decode little-endian to the value |
| Bytes.LERoundTrip | modules/core/core.go:69-82 | decoding the little-endian encoding of a value gives the value back |
| Bytes.FromLERoundTrip | modules/core/core.go:161-186 | encoding a decoded byte string at its own width gives the bytes back, so the encoding is a bijection |
| AddressCodec.Canonical | modules/core/core.go:119-121 | IP.To4: an IPv4-mapped IPv6 address becomes the IPv4 address in its last four bytes; every other address and every port is kept |
| AddressCodec.WriteAddress | modules/core/core.go:114-135 | absent: tag 0 only; IPv4: tag 1, the four address bytes, then the port low byte first at 5..7; IPv6: tag 2, sixteen address bytes, port at 17..19; bytes past the written ones are unchanged |
| AddressCodec.ReadAddress | modules/core/core.go:238-247 | any tag other than 1 or 2 is no address; tag 1 takes bytes 1..5 and the port from 5..7; tag 2 takes bytes 1..17 and the port from 17..19 |
| AddressCodec.AddressRoundTrip | modules/core/core.go:114-135 | reading a written slot gives the address back as To4 classifies it |
| AddressCodec.AddressRoundTripExact | modules/core/core.go:238-247 | an absent, IPv4 or non-mapped IPv6 address survives the round trip unchanged |
| AddressCodec.IPv4SlotExample | modules/core/core.go:121-128 | 203.0.113.5:40000 is written as 1, 203, 0, 113, 5, 0x40, 0x9C |
| AddressCodec.ReadAddressAsWritten | modules/core/core.go:238-247 | the read as the code is written: IPv4 comes back in 16-byte IPv4-mapped form; IPv6 comes back as every byte after the tag |
| AddressCodec.IPv4ReadAsWrittenIsMappedForm | modules/core/core.go:240-243 | a 4-byte IPv4 address is read back by the code as written in its 16-byte mapped form with the same port, a byte string different from the one written |
| AddressCodec.IPv6ReadAsWrittenIsNotTheAddress | modules/core/core.go:244 | an IPv6 address written to a slot of n >= 19 bytes reads back as an (n-1)-byte IP, which is not the address written |
| AddressCodec.MappedIPv6ReadAsWrittenIsTheAddress | modules/core/core.go:240-243 | an IPv4-mapped IPv6 address is written with the IPv4 tag and read back by the code as written as exactly the address and port given |
| Tags.Sum16 | modules/core/core.go:266-285 | the byte-by-byte uint16 sum, wrapping after every addition, equals the unbounded sum modulo 2^16 |
| Tags.PittleInput | modules/core/core.go:257-285 | the summed bytes are the two addresses, the two ports as 2 bytes each and the uint32 length as 4 bytes, each field counted exactly once |
| Tags.TotalPermutation | modules/core/core.go:266-285 | the unbounded byte sum is the same for any two byte strings with the same multiset of bytes |
| Tags.Sum16Permutation | modules/core/core.go:266-285 | the wrapping sum is the same for any reordering of the input bytes |
| Tags.FnvWriteAppend | modules/core/core.go:305-311 | feeding bytes in two pieces is feeding their concatenation |
| Tags.PittleOfSum | modules/core/core.go:287-291 | both bytes made from the sum are odd, hence never zero |
| Tags.Pittle | modules/core/core.go:255-292 | the tag is two bytes, both odd |
| Tags.PittleDependsOnlyOnSum | modules/core/core.go:266-291 | two contexts whose input bytes have the same sum modulo 2^16 get the same tag |
| Tags.PittleSymmetric | modules/core/core.go:255-292 | swapping (fromAddress, fromPort) with (toAddress, toPort) does not change the tag |
| Tags.Fnv1a64TestVectors | modules/core/core.go:305-312 | the hash function gives the published FNV-1a 64 values for "", "a" and "foobar" |
| Tags.ChonkleHash | modules/core/core.go:296-312 | the six hash.Write calls hash magic, fromAddress, fromPort LE, toAddress, toPort LE and uint32 length LE as one concatenated string |
| Tags.HashBytes | modules/core/core.go:314-315 | PutUint64 of the hash gives eight bytes |
| Tags.HashOfBytes | modules/core/core.go:314-315 | every 8-byte string is the byte layout of some 64-bit hash |
| Tags.HashOfHashBytes | modules/core/core.go:314-315 | the hash is recovered from its eight bytes, so the layout is a bijection |
| Tags.Redistribute | modules/core/core.go:317-348 | for every eight hash bytes, all fifteen tag bytes lie in their ranges or sets, and byte 10 is fixed by byte 6 |
| Tags.RedistributeNoOverflow | modules/core/core.go:317-348 | no byte addition in the redistribution exceeds 255, so Go's byte arithmetic never wraps |
| Tags.ChonkleOfHashBytes | modules/core/core.go:314-348 | the tag made from any eight hash bytes satisfies the exact image predicate |
| Tags.ChonkleOfHashBytesOfTag | modules/core/core.go:317-348 | every tag satisfying the image predicate is the redistribution of the hash bytes rebuilt from it |
| Tags.ChonkleImageIsExact | modules/core/core.go:314-348 | the image predicate is exactly the set of tags some 64-bit hash produces |
| Tags.Chonkle | modules/core/core.go:294-349 | every Chonkle tag is fifteen bytes within the per-byte ranges |
| TagVectors.ScenarioChonkle | modules/core/core.go:294-349 | magic of eight zero bytes, 1.2.3.4:1000 to 5.6.7.8:2000, length 20 gives the tag 45, 216, 24, 33, 80, 96, 162, 7, 83, 126, 182, 41, 43, 214, 134 |
| TagVectors.ScenarioPittle | modules/core/core.go:255-292 | the same context gives the Pittle tag 59, 181 |
| Filters.BasicPacketFilter | modules/core/core.go:351-418 | a length below 18 is rejected; an accepted packet has a type byte in [0x01, 0x63] |
| Filters.BasicFilterMeaning | modules/core/core.go:353-417 | the chain of checks accepts exactly a packet of length >= 18 with a valid type byte whose bytes 1..16 lie in the basic ranges |
| Filters.ChonkleRangesWithinBasic | modules/core/core.go:361-415 | each Chonkle byte range lies inside the basic filter's range for that byte |
| Filters.BasicFilterIgnoresByte4AndTail | modules/core/core.go:369-373 | the verdict does not depend on byte 4 or on any byte past 15 |
| Filters.BasicFilterAcceptsChonkleTags | modules/core/core.go:357-417 | a packet with a valid type byte and any Chonkle tag at bytes 1..16 passes |
| Filters.BasicFilterAdmitsNonChonkleHeader | modules/core/core.go:381-383 | a concrete header passes the filter although no Chonkle tag has its byte 7 |
| Filters.AdvancedPacketFilter | modules/core/core.go:420-435 | accepts exactly when length >= 18, bytes 1..16 equal the recomputed Chonkle tag and the last two bytes equal the recomputed Pittle tag |
| Filters.Stamp | modules/core/core.go:426-433 | stamping puts the Chonkle tag at bytes 1..16 and the Pittle tag at the two bytes before packetLength, the places the advanced filter compares, and keeps the length, the type byte, the payload and every byte after packetLength |
| Filters.AdvancedFilterAcceptsStamped | modules/core/core.go:420-435 | a packet stamped for a context passes the advanced filter for that context, whatever its type byte and payload |
| Filters.AdvancedImpliesBasic | modules/core/core.go:420-435 | a packet the advanced filter accepts, with a valid type byte, also passes the basic filter |
| Filters.AdvancedFilterRejectsTampered | modules/core/core.go:428-433 | changing any single byte of either tag region of an accepted packet makes it rejected |
| Filters.FiltersRejectShortOrUntyped | modules/core/core.go:353-359 | length 17 is rejected by both filters for every buffer, whatever its length and bytes; a zero type byte is rejected at length 18 |

## Left out

- `init`, `debugLogs`, `Error` and `Debug` (`modules/core/core.go:15-32`): environment lookup and printing, no wire behaviour.
- `ParseAddress` (`modules/core/core.go:41-52`): text parsing done by `net.SplitHostPort`, `net.ParseIP` and `strconv.Atoi`, which are not part of this model.
- `RandomBytes` (`modules/core/core.go:249-253`): operating-system randomness.
- `WriteFloat32`, `WriteFloat64`, `ReadFloat32` and `ReadFloat64` (`modules/core/core.go:84-92`, `188-204`): each is the uint32 or uint64 operation applied to the IEEE-754 bit pattern. The bit-pattern conversion is floating point and is not modelled; on the wire they are `WriteUint32`/`WriteUint64` and `ReadUint32`/`ReadUint64`.
- `GetAddressData` (`modules/core/core.go:437-468`): a stub that only zeroes the port and the byte count; `addressData` is left untouched. The commented-out body is not code. The tag generators take the address bytes and ports directly.
- The HTTP authentication server (`cmd/auth/auth.go`): network I/O and process lifecycle.
- Go slices alias their backing arrays and are written in place. The model returns a fresh sequence, which gives the same result only while the slices involved do not overlap. Two cases where they do are not modelled:
  - `Cursor.WriteBytes` with `value` overlapping `data` just behind the cursor: Go's forward loop (`modules/core/core.go:108-111`) copies bytes it has already overwritten, while the model copies the original bytes.
  - `AddressCodec.ReadAddressAsWritten`: Go's IPv6 IP (`modules/core/core.go:244`) is a slice into the buffer and changes when the buffer is later written; the model's IP is a value.
- The cursor is a `nat`. Go's index is an `int`, and with a negative index a read whose bounds check fails (`ReadUint32` at -1 on a 2-byte buffer) returns false while any other access panics. Negative cursors are not modelled.
- `Filters.BasicPacketFilter`: a buffer shorter than 16 bytes at a length of at least 18 is a precondition. Go indexes bytes 0 to 15 only while the checks pass, so it returns false without panicking when an earlier check already fails (`[0x00]` at length 18).
- `Filters.AdvancedPacketFilter`: a `seq` has no capacity, and Go slices `data[1:16]` and `data[packetLength-2:packetLength]` up to `cap(data)`, not `len(data)`. Inputs with `packetLength > len(data)` are therefore a precondition. On them Go panics when a slice exceeds `cap(data)`, returns false on a Chonkle mismatch, and otherwise compares bytes past `len(data)` from the backing array.
- `Tags.HashBytes`: its contract gives the length only. The little-endian layout is stated at bit level, by `HashOfBytes` and `HashOfHashBytes`, and not as the integer value of the bytes.
- Writes that index past the end of the buffer panic in Go. They are preconditions here, not modelled failures.
- `AddressCodec.WriteAddress`: ports are `uint16`. Go's `int` port above 65535 is truncated by `byte(port >> 8)`, which the model does not represent.
- `AddressCodec.WriteAddress`: addresses are absent, 4 bytes or 16 bytes. A non-nil `net.UDPAddr` whose IP has another length is not modelled.

## Findings

| source | as written | input that shows it | evidently intended | confidence | as-written member | corrected member |
|---|---|---|---|---|---|---|
| modules/core/core.go:244 | the IPv6 IP is `buffer[1:]`, every byte after the tag | any non-mapped IPv6 address written into a 19-byte slot (e.g. 2001:db8::1 port 443) reads back as an 18-byte IP: the sixteen address bytes followed by the two port bytes; in a longer buffer the IP also takes every byte after the slot | `buffer[1:17]`, the sixteen address bytes `WriteAddress` put there | high; not executed | AddressCodec.IPv6ReadAsWrittenIsNotTheAddress | AddressCodec.AddressRoundTrip |
