/** Lists of length-prefixed byte strings: the class data of the User Class
    and Vendor Class options (sections 22.15 and 22.16 of RFC 3315) and the
    parameters of the Boot File Parameters option (section 3.2 of RFC 5970).
    Each record is a 16-bit big-endian length followed by that many bytes.
    The Go code has two identical decoders for this format, `decodeClassData`
    and `decodeParameters`, and two identical encoders; both pairs are `Decode`
    and `Encode` here.
 */
module ClassData {
  import opened Wire

  /** Encoding of one record; the length prefix is `uint16(len(s))`. */
  function Record(s: Bytes): (r: Bytes)
    ensures |r| == 2 + |s|
  {
    Be16(|s| % TWO16) + s
  }

  /** `encodeClassData`: the records of `list`, in order. */
  function Encode(list: seq<Bytes>): (r: Bytes)
    ensures |r| == Size(list)
  {
    if |list| == 0 then [] else Record(list[0]) + Encode(list[1..])
  }

  lemma EncodeCons(s: Bytes, list: seq<Bytes>)
    ensures Encode([s] + list) == Record(s) + Encode(list)
  {
    assert ([s] + list)[1..] == list;
  }

  /** A complete record at the start of `d` is the encoding of its body. */
  lemma RecordAt(d: Bytes, end: nat)
    requires 2 <= end <= |d| && end == 2 + Uint16At(d, 0)
    ensures Record(d[2..end]) == d[..end]
  {
    Be16OfUint16At(d, 0);
    assert d[..end] == d[..2] + d[2..end];
  }

  /** Extending the records decoded after a complete first record by that
      record keeps the encoding a prefix of the input, ending where the
      shorter one ended. */
  lemma PrefixStep(d: Bytes, end: nat, rest: seq<Bytes>)
    requires 2 <= end <= |d| && end == 2 + Uint16At(d, 0)
    requires Encode(rest) <= d[end..]
    ensures Encode([d[2..end]] + rest) <= d
    ensures d[|Encode([d[2..end]] + rest)|..] == d[end..][|Encode(rest)|..]
  {
    RecordAt(d, end);
    EncodeCons(d[2..end], rest);
    assert d == d[..end] + d[end..];
  }

  /** The length prefix and body of a record followed by anything. */
  lemma RecordHead(s: Bytes, tail: Bytes)
    requires |s| < TWO16
    ensures var d := Record(s) + tail;
      Uint16At(d, 0) == |s| && d[2..2 + |s|] == s && d[2 + |s|..] == tail
  {
    Uint16AtBe16(|s|, [], s + tail);
    assert Record(s) + tail == [] + Be16(|s|) + (s + tail);
  }

  /** The first record of an encoding that fits. */
  lemma EncodeFirst(list: seq<Bytes>)
    requires |list| > 0 && Fits(list)
    ensures var d, s := Encode(list), list[0];
      && !Stops(d) && Uint16At(d, 0) == |s|
      && d[2..2 + |s|] == s && d[2 + |s|..] == Encode(list[1..])
  {
    var d, s := Encode(list), list[0];
    assert d == Record(s) + Encode(list[1..]);
    RecordHead(s, Encode(list[1..]));
    assert 2 + |s| <= |d| < TWO16;
    ModSmall(|d|, TWO16);
    ModSmall(2 + |s|, TWO16);
  }

  /** Unbounded byte count of the encoding: each string plus its 2-byte prefix. */
  function Size(list: seq<Bytes>): nat
  {
    if |list| == 0 then 0 else 2 + |list[0]| + Size(list[1..])
  }

  /** `classDataLen`: the byte count truncated to 16 bits. */
  function Len(list: seq<Bytes>): (r: uint16)
    ensures r == |Encode(list)| % TWO16
  {
    Size(list) % TWO16
  }

  /** True when `d` does not begin with a complete record, which is where
      decoding stops.  The Go guard compares `uint16(len(d))` with the 16-bit
      sum `2+pl`, both truncated. */
  predicate Stops(d: Bytes)
  {
    |d| < 2 || |d| % TWO16 < (2 + Uint16At(d, 0)) % TWO16
  }

  /** `decodeClassData` / `decodeParameters`.  Reads records until fewer than
      2 bytes remain or the next record's declared body would overrun, and
      keeps the complete records before that point; trailing bytes are dropped
      without an error.  A declared length of 0xFFFE or 0xFFFF makes `2+pl`
      wrap to 0 or 1 and the slice `d[2:2+pl]` abort. */
  function Decode(d: Bytes): (r: Result<seq<Bytes>>)
    ensures r.Ok? || r.Panic?
    ensures r.Ok? ==> Encode(r.value) <= d
    ensures r.Ok? && |d| < TWO16 ==> Stops(d[|Encode(r.value)|..])
    decreases |d|
  {
    if Stops(d) then Ok([])
    else
      var end := (2 + Uint16At(d, 0)) % TWO16;
      if end < 2 then Panic
      else
        var rest :- Decode(d[end..]);
        PrefixStep(d, end, rest);
        Ok([d[2..end]] + rest)
  }

  /** Strings short enough for their length prefix, in an encoding that fits
      in a 16-bit length. */
  predicate Fits(list: seq<Bytes>)
  {
    Size(list) < TWO16
  }

  /** One decoding step on a complete record with no wrap-around. */
  lemma DecodeStep(d: Bytes, end: nat)
    requires !Stops(d)
    requires end == (2 + Uint16At(d, 0)) % TWO16 >= 2
    ensures end <= |d|
    ensures Decode(d[end..]).Ok? ==> Decode(d) == Ok([d[2..end]] + Decode(d[end..]).value)
    ensures Decode(d[end..]).Panic? ==> Decode(d).Panic?
  {
  }

  /** Decoding the encoding of a list gives the list back. */
  lemma {:induction false} DecodeEncode(list: seq<Bytes>)
    requires Fits(list)
    ensures Decode(Encode(list)) == Ok(list)
    decreases |list|
  {
    if |list| > 0 {
      var d, s := Encode(list), list[0];
      EncodeFirst(list);
      DecodeStep(d, 2 + |s|);
      DecodeEncode(list[1..]);
      assert [s] + list[1..] == list;
    }
  }

  /** A truncated last record is dropped without an error. */
  lemma TruncatedRecordDropped()
    ensures Decode([0, 3, 102, 111, 111, 0, 9, 98]) == Ok([[102, 111, 111]])
  {
    var d: Bytes := [0, 3, 102, 111, 111, 0, 9, 98];
    var tail: Bytes := [0, 9, 98];
    assert Uint16At(tail, 0) == 9 && Stops(tail);
    assert Decode(tail) == Ok([]);
    assert Uint16At(d, 0) == 3 && d[5..] == tail && d[2..5] == [102, 111, 111];
    DecodeStep(d, 5);
    assert [d[2..5]] + [] == [d[2..5]];
  }

  /** The walk `Decode` takes meets no length prefix of 0xFFFE or 0xFFFF
      before it stops. */
  predicate NoWrap(d: Bytes)
    decreases |d|
  {
    Stops(d) || (Uint16At(d, 0) <= 0xFFFD && NoWrap(d[2 + Uint16At(d, 0)..]))
  }

  /** Decoding aborts exactly when a length prefix on its walk wraps `2+pl`. */
  lemma {:induction false} DecodeOkIff(d: Bytes)
    ensures Decode(d).Ok? <==> NoWrap(d)
    decreases |d|
  {
    if !Stops(d) {
      var pl := Uint16At(d, 0);
      if pl <= 0xFFFD {
        assert (2 + pl) % TWO16 == 2 + pl;
        DecodeStep(d, 2 + pl);
        DecodeOkIff(d[2 + pl..]);
        assert NoWrap(d) == NoWrap(d[2 + pl..]);
      } else {
        assert (2 + pl) % TWO16 < 2;
        assert Decode(d) == Panic;
      }
    }
  }
}
