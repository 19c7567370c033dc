/** Fixed-width integers, big-endian byte helpers and the decode outcome
    shared by every layer of the DHCPv6 codec.

    Go integers are fixed-width; Dafny's are not.  Every place where the Go
    code relies on a conversion or an addition wrapping around is written out
    with an explicit `%` against one of the moduli below.
 */
module Wire {

  type uint8 = x: int | 0 <= x < 0x100
  type uint16 = x: int | 0 <= x < 0x1_0000
  type uint32 = x: int | 0 <= x < 0x1_0000_0000
  type int64 = x: int | -0x8000_0000_0000_0000 <= x < 0x8000_0000_0000_0000

  /** A Go `[]byte`; Go strings are byte strings too and use the same type. */
  type Bytes = seq<uint8>

  const TWO8: int := 0x100
  const TWO16: int := 0x1_0000
  const TWO24: int := 0x100_0000
  const TWO32: int := 0x1_0000_0000

  /** Error kinds the Go code returns (the message text is not modelled). */
  datatype Error =
    | DuidTooShort                        // errDUIDTooShort
    | UnhandledDuidType(duidType: uint8)  // "unhandled DUIDType ..."
    | OptionTooShort                      // errOptionTooShort
    | OptionTooLong                       // errOptionTooLong
    | MessageTooShort                     // errMessageTooShort
    | BadOptions(cause: Error)            // "could not decode options: ..."

  /** Outcome of a decode.  Besides the values and errors the Go functions
      return, two outcomes stand for behaviour the Go code has but does not
      return: `Panic`, a slice or index out of range that aborts the Go
      runtime, and `Hang`, a decode loop that never exits.  Usable with `:-`. */
  datatype Result<+T> = Ok(value: T) | Fail(error: Error) | Panic | Hang {

    predicate IsFailure() {
      !Ok?
    }

    function PropagateFailure<U>(): (r: Result<U>)
      requires !Ok?
      ensures r.Fail? == Fail? && r.Panic? == Panic? && r.Hang? == Hang?
    {
      if Fail? then Fail(error) else if Panic? then Panic else Hang
    }

    function Extract(): T
      requires Ok?
    {
      value
    }
  }

  /** `b[lo:hi]` in Go: out of range aborts. */
  function Slice(b: Bytes, lo: int, hi: int): (r: Result<Bytes>)
    ensures r.Ok? <==> 0 <= lo <= hi <= |b|
    ensures r.Ok? ==> |r.value| == hi - lo
    ensures r.Ok? ==> forall k :: 0 <= k < hi - lo ==> r.value[k] == b[lo + k]
    ensures !r.Ok? ==> r.Panic?
  {
    if 0 <= lo <= hi <= |b| then Ok(b[lo..hi]) else Panic
  }

  /** `b[k]` in Go: out of range aborts. */
  function ByteAt(b: Bytes, k: int): (r: Result<uint8>)
    ensures r.Ok? <==> 0 <= k < |b|
    ensures r.Ok? ==> r.value == b[k]
    ensures !r.Ok? ==> r.Panic?
  {
    if 0 <= k < |b| then Ok(b[k]) else Panic
  }

  /** Big-endian 16-bit value of `b[k], b[k+1]` (`binary.BigEndian.Uint16`). */
  function Uint16At(b: Bytes, k: nat): uint16
    requires k + 2 <= |b|
  {
    (b[k] as int) * 0x100 + (b[k + 1] as int)
  }

  /** Big-endian 32-bit value of `b[k..k+4]` (`binary.BigEndian.Uint32`). */
  function Uint32At(b: Bytes, k: nat): uint32
    requires k + 4 <= |b|
  {
    (Uint16At(b, k) as int) * 0x1_0000 + (Uint16At(b, k + 2) as int)
  }

  /** `binary.BigEndian.Uint32(b[k:k+4])`, aborting when the bytes are missing. */
  function ReadUint32(b: Bytes, k: nat): (r: Result<uint32>)
    ensures r.Ok? <==> k + 4 <= |b|
    ensures r.Ok? ==> r.value == Uint32At(b, k)
    ensures !r.Ok? ==> r.Panic?
  {
    if k + 4 <= |b| then Ok(Uint32At(b, k)) else Panic
  }

  /** `binary.BigEndian.PutUint16`. */
  function Be16(x: uint16): (b: Bytes)
    ensures |b| == 2
  {
    [x / 0x100, x % 0x100]
  }

  /** `binary.BigEndian.PutUint32`. */
  function Be32(x: uint32): (b: Bytes)
    ensures |b| == 4
  {
    Be16(x / 0x1_0000) + Be16(x % 0x1_0000)
  }

  lemma Uint16AtBe16(x: uint16, pre: Bytes, post: Bytes)
    ensures Uint16At(pre + Be16(x) + post, |pre|) == x
  {
    var b := pre + Be16(x) + post;
    assert b[|pre|] == x / 0x100 && b[|pre| + 1] == x % 0x100;
  }

  lemma Uint32AtBe32(x: uint32, pre: Bytes, post: Bytes)
    ensures Uint32At(pre + Be32(x) + post, |pre|) == x
  {
    var b := pre + Be32(x) + post;
    assert b == pre + Be16(x / 0x1_0000) + (Be16(x % 0x1_0000) + post);
    Uint16AtBe16(x / 0x1_0000, pre, Be16(x % 0x1_0000) + post);
    assert b == (pre + Be16(x / 0x1_0000)) + Be16(x % 0x1_0000) + post;
    Uint16AtBe16(x % 0x1_0000, pre + Be16(x / 0x1_0000), post);
  }

  /** Truncating an addend to 16 bits first does not change a 16-bit sum. */
  lemma ModAdd(a: int, b: int)
    ensures (a + b % TWO16) % TWO16 == (a + b) % TWO16
  {
  }

  lemma ModSum(x: nat, y: nat)
    ensures (x % TWO16 + 4 + y % TWO16) % TWO16 == (x + 4 + y) % TWO16
  {
    var qx, qy := x / TWO16, y / TWO16;
    assert x + 4 + y == (x % TWO16 + 4 + y % TWO16) + TWO16 * (qx + qy);
  }

  /** A value already below the modulus is its own remainder. */
  lemma ModSmall(x: int, m: int)
    requires 0 <= x < m
    ensures x % m == x
  {
  }

  lemma SliceMiddle(pre: Bytes, x: Bytes, post: Bytes)
    ensures (pre + x + post)[|pre|..|pre| + |x|] == x
    ensures (pre + x + post)[|pre| + |x|..] == post
  {
    var b := pre + x + post;
    assert b[|pre|..|pre| + |x|] == x;
    assert b[|pre| + |x|..] == post;
  }

  /** A slice of a sub-sequence placed at `off`. */
  lemma SliceWithin(data: Bytes, off: nat, b: Bytes, lo: nat, hi: nat)
    requires off + |b| <= |data| && data[off..off + |b|] == b
    requires lo <= hi <= |b|
    ensures data[off + lo..off + hi] == b[lo..hi]
  {
    assert forall j | lo <= j < hi :: data[off + j] == b[j];
  }

  /** A 16-bit field read inside a sub-sequence placed at `off`. */
  lemma Uint16AtWithin(data: Bytes, off: nat, b: Bytes, k: nat, x: uint16)
    requires off + |b| <= |data| && data[off..off + |b|] == b
    requires k + 2 <= |b| && b[k..k + 2] == Be16(x)
    ensures Uint16At(data, off + k) == x
  {
    assert data[off + k] == b[k] && data[off + k + 1] == b[k + 1];
    assert Be16(x)[0] == b[k] && Be16(x)[1] == b[k + 1];
  }

  /** A 32-bit field read inside a sub-sequence placed at `off`. */
  lemma Uint32AtWithin(data: Bytes, off: nat, b: Bytes, k: nat, x: uint32)
    requires off + |b| <= |data| && data[off..off + |b|] == b
    requires k + 4 <= |b| && b[k..k + 4] == Be32(x)
    ensures Uint32At(data, off + k) == x
  {
    assert Be32(x)[..2] == Be16(x / 0x1_0000) && Be32(x)[2..] == Be16(x % 0x1_0000);
    assert b[k..k + 2] == b[k..k + 4][..2];
    assert b[k + 2..k + 4] == b[k..k + 4][2..];
    Uint16AtWithin(data, off, b, k, x / 0x1_0000);
    Uint16AtWithin(data, off, b, k + 2, x % 0x1_0000);
  }

  lemma Be16OfUint16At(b: Bytes, k: nat)
    requires k + 2 <= |b|
    ensures Be16(Uint16At(b, k)) == b[k..k + 2]
  {
  }

  lemma Be32OfUint32At(b: Bytes, k: nat)
    requires k + 4 <= |b|
    ensures Be32(Uint32At(b, k)) == b[k..k + 4]
  {
    assert Uint32At(b, k) / 0x1_0000 == Uint16At(b, k);
    assert Uint32At(b, k) % 0x1_0000 == Uint16At(b, k + 2);
    Be16OfUint16At(b, k);
    Be16OfUint16At(b, k + 2);
    assert b[k..k + 4] == b[k..k + 2] + b[k + 2..k + 4];
  }

  /** Go's integer division, which truncates toward zero (Dafny's `/` is
      Euclidean). */
  function TruncDiv(a: int, d: int): (q: int)
    requires d > 0
    ensures a >= 0 ==> 0 <= a - q * d < d
    ensures a < 0 ==> -d < a - q * d <= 0
  {
    if a >= 0 then a / d else -((-a) / d)
  }
}
