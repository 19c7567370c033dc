/** DHCP Unique Identifiers (duid.go): DUID-LLT (section 9.2 of RFC 3315),
    DUID-LL (section 9.4 of RFC 3315) and DUID-UUID (section 4 of RFC 6355).
    The enterprise-number DUID (section 9.3 of RFC 3315) is declared in Go as
    a struct without methods, so no value of it can be decoded or encoded and
    it has no constructor here; its type code is rejected like any unknown one.
 */
module Duid {
  import opened Wire

  /** Seconds added to the 32-bit wire time to get Unix seconds.  It is
      2000-01-02 00:00 UTC, one day after the epoch of section 9.2 of RFC 3315;
      the codec uses it in both directions, so it is kept as is. */
  const EPOCH_OFFSET: int := 946771200

  const TYPE_LLT: uint8 := 1
  const TYPE_EN: uint8 := 2
  const TYPE_LL: uint8 := 3
  const TYPE_UUID: uint8 := 4

  /** A UUID is opaque: 16 bytes copied verbatim in both directions. */
  type Uuid = s: Bytes | |s| == 16 witness [0, 0, 0, 0, 0, 0, 0, 0, 0, 0, 0, 0, 0, 0, 0, 0]

  /** `time` is Unix seconds (`time.Time.Unix()`); link-layer addresses may
      have any length. */
  datatype Duid =
    | Llt(hardwareType: uint16, time: int64, linkLayerAddress: Bytes)
    | Ll(hardwareType: uint16, linkLayerAddress: Bytes)
    | UuidDuid(uuid: Uuid)

  /** The type code each variant reports and writes. */
  function Type(d: Duid): uint8
  {
    match d
    case Llt(_, _, _) => TYPE_LLT
    case Ll(_, _) => TYPE_LL
    case UuidDuid(_) => TYPE_UUID
  }

  /** Encoded length including the 2-byte type, truncated to 16 bits as the
      Go `uint16(...)` conversion does. */
  function Len(d: Duid): (r: uint16)
    ensures r == Size(d) % TWO16
  {
    match d
    case Llt(_, _, lla) => (8 + |lla|) % TWO16
    case Ll(_, lla) => (4 + |lla|) % TWO16
    case UuidDuid(_) => 18
  }

  /** Unbounded byte count of the encoding. */
  function Size(d: Duid): nat
  {
    match d
    case Llt(_, _, lla) => 8 + |lla|
    case Ll(_, lla) => 4 + |lla|
    case UuidDuid(_) => 18
  }

  /** The 32-bit wire time for a Unix time: `uint32(unix - 946771200)`. */
  function WireTime(unix: int64): uint32
  {
    (unix - EPOCH_OFFSET) % TWO32
  }

  /** The Unix time for a wire time: the addition is done in `uint32`, so it
      wraps for wire values of 2^32 - 946771200 and above. */
  function UnixTime(wire: uint32): int64
  {
    (wire + EPOCH_OFFSET) % TWO32
  }

  function Marshal(d: Duid): (r: Bytes)
    ensures |r| == Size(d)
    ensures |r| >= 2 && r[..2] == Be16(Type(d))
  {
    match d
    case Llt(hw, t, lla) => Be16(TYPE_LLT) + Be16(hw) + Be32(WireTime(t)) + lla
    case Ll(hw, lla) => Be16(TYPE_LL) + Be16(hw) + lla
    case UuidDuid(u) => Be16(TYPE_UUID) + u
  }

  /** The inputs `Decode` rejects as too short for the type code in `data[1]`. */
  predicate TooShortFor(data: Bytes)
  {
    || |data| < 2
    || (data[1] == TYPE_LLT && |data| < 8)
    || (data[1] == TYPE_LL && |data| < 4)
    || (data[1] == TYPE_UUID && |data| != 18)
  }

  /** `DecodeDUID`.  The 16-bit type code is converted to the 8-bit `DUIDType`,
      so only its low byte `data[1]` selects the variant. */
  function Decode(data: Bytes): (r: Result<Duid>)
    ensures !r.Panic? && !r.Hang?
    ensures r == Fail(DuidTooShort) <==> TooShortFor(data)
    ensures r.Fail? && r.error.UnhandledDuidType? <==>
              !TooShortFor(data) && data[1] !in {TYPE_LLT, TYPE_LL, TYPE_UUID}
    ensures r.Fail? ==> r.error == DuidTooShort || r.error == UnhandledDuidType(data[1])
    ensures r.Ok? ==> |data| >= 2 && Type(r.value) == data[1]
  {
    if |data| < 2 then Fail(DuidTooShort)
    else
      var t := data[1];
      if t == TYPE_LLT then
        if |data| < 8 then Fail(DuidTooShort)
        else Ok(Llt(Uint16At(data, 2), UnixTime(Uint32At(data, 4)), data[8..]))
      else if t == TYPE_LL then
        if |data| < 4 then Fail(DuidTooShort)
        else Ok(Ll(Uint16At(data, 2), data[4..]))
      else if t == TYPE_UUID then
        if |data| != 18 then Fail(DuidTooShort)
        else Ok(UuidDuid(data[2..18]))
      else Fail(UnhandledDuidType(t))
  }

  /** Values `Marshal` can write and `Decode` gives back unchanged. */
  predicate Valid(d: Duid)
  {
    d.Llt? ==> 0 <= d.time < TWO32
  }

  lemma UnixTimeOfWireTime(t: int64)
    requires 0 <= t < TWO32
    ensures UnixTime(WireTime(t)) == t
  {
  }

  lemma WireTimeOfUnixTime(w: uint32)
    ensures WireTime(UnixTime(w)) == w
  {
  }

  /** Value round trip: every valid DUID decodes back from its encoding.
      For DUID-LLT this covers every Unix time in [0, 2^32), not only those
      after the epoch offset. */
  lemma DecodeMarshal(d: Duid)
    requires Valid(d)
    ensures Decode(Marshal(d)) == Ok(d)
  {
    var b := Marshal(d);
    match d
    case Llt(hw, t, lla) =>
      Uint16AtBe16(hw, Be16(TYPE_LLT), Be32(WireTime(t)) + lla);
      assert b == Be16(TYPE_LLT) + Be16(hw) + (Be32(WireTime(t)) + lla);
      Uint32AtBe32(WireTime(t), Be16(TYPE_LLT) + Be16(hw), lla);
      UnixTimeOfWireTime(t);
      assert b[8..] == lla;
    case Ll(hw, lla) =>
      Uint16AtBe16(hw, Be16(TYPE_LL), lla);
      assert b[4..] == lla;
    case UuidDuid(u) =>
      var h := Be16(TYPE_UUID);
      assert b == h + u && |h| == 2 && |b| == 18;
      assert b[|h|..] == u;
      assert b[2..18] == b[2..];
  }

  /** Byte round trip: re-encoding an accepted input reproduces it, except
      that the high byte of the type code, which decoding ignores, comes back
      as zero. */
  lemma MarshalDecode(data: Bytes)
    requires Decode(data).Ok?
    ensures Marshal(Decode(data).value) == [0] + data[1..]
  {
    var d := Decode(data).value;
    match d
    case Llt(hw, t, lla) =>
      Be16OfUint16At(data, 2);
      Be32OfUint32At(data, 4);
      WireTimeOfUnixTime(Uint32At(data, 4));
      assert data == data[..2] + data[2..4] + data[4..8] + data[8..];
    case Ll(hw, lla) =>
      Be16OfUint16At(data, 2);
      assert data == data[..2] + data[2..4] + data[4..];
    case UuidDuid(u) =>
      assert data == data[..2] + data[2..18];
  }

  /** Hence the exact byte round trip holds precisely for the accepted inputs
      whose first byte is zero. */
  lemma ByteRoundTripIff(data: Bytes)
    requires Decode(data).Ok?
    ensures Marshal(Decode(data).value) == data <==> data[0] == 0
  {
    MarshalDecode(data);
    assert ([0] + data[1..])[0] == 0;
    if data[0] == 0 {
      assert data == [0] + data[1..];
    }
  }

  /** Every decoded DUID is valid, so decoding is a left inverse of encoding
      on everything decoding produces. */
  lemma DecodedIsValid(data: Bytes)
    requires Decode(data).Ok?
    ensures Valid(Decode(data).value)
  {
  }

  /** The DUID-LLT golden vector: hardware type 1, wire time 500000000 read
      as Unix time 1446771200, MAC aa:bb:cc:dd:ee:ff, and back to the same bytes. */
  lemma LltGoldenVector()
    ensures Decode([0, 1, 0, 1, 29, 205, 101, 0, 170, 187, 204, 221, 238, 255])
         == Ok(Llt(1, 1446771200, [170, 187, 204, 221, 238, 255]))
    ensures Marshal(Llt(1, 1446771200, [170, 187, 204, 221, 238, 255]))
         == [0, 1, 0, 1, 29, 205, 101, 0, 170, 187, 204, 221, 238, 255]
    ensures Len(Llt(1, 1446771200, [170, 187, 204, 221, 238, 255])) == 14
  {
    var b: Bytes := [0, 1, 0, 1, 29, 205, 101, 0, 170, 187, 204, 221, 238, 255];
    assert Uint32At(b, 4) == 500000000;
    assert b[8..] == [170, 187, 204, 221, 238, 255];
  }
}
