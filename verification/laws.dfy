/** Laws relating the 16-bit lengths the encoder writes to the real size of
    the encoding, and the decoder to the encoder. */
module OptionLaws {
  import opened Wire
  import Duid
  import ClassData
  import opened Options
  import opened OptionDecode

  lemma {:induction false} ValidAddresses16(o: Option)
    requires Valid(o)
    ensures Addresses16(o)
    decreases o
  {
    match o
    case IaNa(_, _, _, os) =>
      forall i | 0 <= i < |os| ensures Addresses16(os[i]) { ValidAddresses16(os[i]); }
    case NextHop(_, os) =>
      forall i | 0 <= i < |os| ensures Addresses16(os[i]) { ValidAddresses16(os[i]); }
    case RoutePrefix(_, _, _, _, _, os) =>
      forall i | 0 <= i < |os| ensures Addresses16(os[i]) { ValidAddresses16(os[i]); }
    case _ =>
  }

  /** The bytes of the `j`-th word of `Words(ws)`. */
  lemma {:induction false} WordsAt(ws: seq<uint16>, j: nat)
    requires j < |ws|
    ensures Words(ws)[2 * j] == ws[j] / 0x100 && Words(ws)[2 * j + 1] == ws[j] % 0x100
    decreases j
  {
    assert Words(ws) == Be16(ws[0]) + Words(ws[1..]);
    if j > 0 {
      WordsAt(ws[1..], j - 1);
    }
  }

  /** The option-request codes read back from their encoding: each code is
      written as a 16-bit word whose low byte is the code. */
  lemma {:induction false} RequestedCodesWords(codes: seq<uint8>)
    ensures RequestedCodes(Words(codes)) == codes
    decreases |codes|
  {
    if |codes| > 0 {
      var b := Words(codes);
      assert b == Be16(codes[0]) + Words(codes[1..]);
      assert b[2..] == Words(codes[1..]);
      RequestedCodesWords(codes[1..]);
      assert RequestedCodes(b) == [b[1]] + RequestedCodes(b[2..]);
      assert codes == [codes[0]] + codes[1..];
    }
  }

  /** The preference written into a Route Prefix option reads back as itself
      for the three defined preferences. */
  lemma PreferenceRoundTrip(p: uint8)
    requires p in {PREFERENCE_MEDIUM, PREFERENCE_HIGH, PREFERENCE_LOW}
    ensures PreferenceOf(PreferenceByte(p)) == p
  {
  }

  /** Any other preference value is written as Medium. */
  lemma PreferenceOtherIsMedium(p: uint8)
    requires p !in {PREFERENCE_HIGH, PREFERENCE_LOW}
    ensures PreferenceByte(p) == 0 && PreferenceOf(PreferenceByte(p)) == PREFERENCE_MEDIUM
  {
  }

  /** The decoder's reading of the preference byte depends on bits 4 and 3
      only. */
  lemma PreferenceBits(b: uint8)
    ensures PreferenceOf(b) == PREFERENCE_LOW <==> (b / 16) % 2 == 1 && (b / 8) % 2 == 1
    ensures PreferenceOf(b) == PREFERENCE_HIGH <==> (b / 16) % 2 == 0 && (b / 8) % 2 == 1
    ensures PreferenceOf(b) == PREFERENCE_MEDIUM <==> (b / 8) % 2 == 0
  {
  }

  /** The elapsed time reads back as written when it is a whole number of
      hundredths of a second that fits the 16-bit field. */
  lemma ElapsedRoundTrip(d: int64)
    requires 0 <= d < TWO16 * CENTISECOND && d % CENTISECOND == 0
    ensures ElapsedWire(d) * CENTISECOND == d
  {
    var k := d / CENTISECOND;
    assert d == k * CENTISECOND;
    assert TruncDiv(d, 1_000_000) == 10 * k;
    assert TruncDiv(10 * k, 10) == k;
  }

  /** Decoding an elapsed-time field rounds down to the hundredth of a
      second: the value written for a non-negative duration below 65536
      hundredths is that duration with the remainder dropped. */
  lemma ElapsedWireTruncates(d: int64)
    requires 0 <= d < TWO16 * CENTISECOND
    ensures ElapsedWire(d) * CENTISECOND == d - d % CENTISECOND
  {
    var k := d / CENTISECOND;
    var m := d / 1_000_000;
    assert m / 10 == k;
  }

  /** The encoder aborts exactly when some Option Request in the tree carries
      more than `MAX_REQUESTED` codes; otherwise it writes `Marshal(o)`. */
  lemma {:induction false} EncodeMarshal(o: Option)
    ensures Encode(o) == if RequestsFit(o) then Ok(Marshal(o)) else Panic
    decreases o, 1
  {
    if o.IaNa? || o.NextHop? || o.RoutePrefix? {
      ListEncodeMarshal(o.options);
    } else if !o.OptionRequest? {
      assert Encode(o) == Ok(Marshal(o));
    }
  }

  /** The same for a list: it aborts exactly when one of its options does. */
  lemma {:induction false} ListEncodeMarshal(os: seq<Option>)
    ensures ListEncode(os) == if forall i | 0 <= i < |os| :: RequestsFit(os[i])
                              then Ok(ListMarshal(os)) else Panic
    decreases os, 0
  {
    if |os| > 0 {
      EncodeMarshal(os[0]);
      ListEncodeMarshal(os[1..]);
      assert forall i | 1 <= i < |os| :: os[1..][i - 1] == os[i];
    }
  }

  /** An option's encoding is at least as long as any one option of its list. */
  lemma {:induction false} ListSizeBounds(os: seq<Option>, i: nat)
    requires i < |os|
    ensures Size(os[i]) <= ListSize(os)
    decreases i
  {
    if i > 0 {
      ListSizeBounds(os[1..], i - 1);
    }
  }

  /** Encodings that fit the 16-bit length field never abort: an Option
      Request with more than `MAX_REQUESTED` codes is over 65535 bytes. */
  lemma {:induction false} SmallRequestsFit(o: Option)
    requires Size(o) <= 65535
    ensures RequestsFit(o)
    decreases o
  {
    match o
    case IaNa(_, _, _, os) =>
      forall i | 0 <= i < |os| ensures RequestsFit(os[i]) {
        ListSizeBounds(os, i);
        SmallRequestsFit(os[i]);
      }
    case NextHop(_, os) =>
      forall i | 0 <= i < |os| ensures RequestsFit(os[i]) {
        ListSizeBounds(os, i);
        SmallRequestsFit(os[i]);
      }
    case RoutePrefix(_, _, _, _, _, os) =>
      forall i | 0 <= i < |os| ensures RequestsFit(os[i]) {
        ListSizeBounds(os, i);
        SmallRequestsFit(os[i]);
      }
    case _ =>
  }

  /** Whatever the encoder writes is `Marshal(o)`, and it writes it whenever
      the encoding fits 65535 bytes. */
  lemma EncodesAsMarshal(o: Option)
    ensures Encode(o).Ok? ==> Encode(o).value == Marshal(o)
    ensures Size(o) <= 65535 ==> Encode(o) == Ok(Marshal(o))
  {
    EncodeMarshal(o);
    if Size(o) <= 65535 {
      SmallRequestsFit(o);
    }
  }

  /** In particular valid options, the ones the round trip covers, encode
      without aborting. */
  lemma ValidEncodes(os: seq<Option>)
    requires AllValid(os)
    ensures ListEncode(os) == Ok(ListMarshal(os))
  {
    forall i | 0 <= i < |os| ensures RequestsFit(os[i]) {
      SmallRequestsFit(os[i]);
    }
    ListEncodeMarshal(os);
  }

  /** `Marshal` writes a 4-byte header, the type code then `Len`, followed by
      the body; `Len` is the body's byte count in 16 bits, and exactly the
      byte count when the encoding is at most 65535 bytes.  Those are the
      bytes the encoder returns when it does not abort, and it does not abort
      when they fit 65535 bytes. */
  lemma MarshalShape(o: Option)
    requires Addresses16(o)
    ensures var m := Marshal(o);
      && |m| >= 4
      && m[..2] == Be16(Code(o)) && m[2..4] == Be16(Len(o))
      && m[4..] == Body(o)
      && Len(o) == (|m| - 4) % TWO16
      && (|m| <= 65535 ==> |m| == 4 + Len(o))
      && (|m| <= 65535 ==> Encode(o) == Ok(m))
      && (Encode(o).Ok? ==> Encode(o).value == m)
  {
    MarshalLayout(o);
    EncodesAsMarshal(o);
  }

  lemma MarshalLayout(o: Option)
    requires Addresses16(o)
    ensures var m := Marshal(o);
      && m[..2] == Be16(Code(o)) && m[2..4] == Be16(Len(o))
      && |m| >= 4
      && m[4..] == Body(o)
      && Len(o) == (|m| - 4) % TWO16
      && (|m| <= 65535 ==> |m| == 4 + Len(o))
  {
    var m := Marshal(o);
    assert m == Be16(Code(o)) + Be16(Len(o)) + Body(o);
    assert |m| == 4 + BodySize(o);
    if |m| <= 65535 {
      ModSmall(BodySize(o), TWO16);
    }
  }

  /** An option of a type the decoder does not handle adds nothing to the
      list, and decoding resumes after its declared body. */
  lemma SkipUnknown(data: Bytes)
    requires |data| >= 4 && !Handled(data[1])
    requires DeclaredLen(data) <= 65531 && 4 + DeclaredLen(data) <= |data|
    ensures 4 + DeclaredLen(data) == |data| ==> DecodeOptions(data) == Ok([])
    ensures 4 + DeclaredLen(data) < |data| ==>
              DecodeOptions(data) == DecodeOptions(data[4 + DeclaredLen(data)..])
  {
    var end := 4 + DeclaredLen(data);
    assert DecodeOne(data) == Ok([]);
    if end < |data| {
      var r := DecodeOptions(data[end..]);
      if r.Ok? {
        assert [] + r.value == r.value;
      }
    }
  }

  /** The per-type length gates.  They are checked once the header's
      declared length fits the input, and fail the whole decode. */
  lemma LengthGates(data: Bytes)
    requires Framed(data)
    ensures var t, l := data[1], DeclaredLen(data);
      (|| (t == IA_NA && l < 12)
       || (t == IA_ADDRESS && l < 24)
       || (t == STATUS_CODE && l < 2)
       || (t == NEXT_HOP && l < 16)
       || (t == ROUTE_PREFIX && l < 22)
       || (t == ELAPSED_TIME && l < 2)
       || (t == CLIENT_NETWORK_INTERFACE_ID && l != 3))
      ==> DecodeOne(data) == Fail(OptionTooShort) && DecodeOptions(data) == Fail(OptionTooShort)
    ensures var t, l := data[1], DeclaredLen(data);
      ((t == ELAPSED_TIME && l > 2) || (t == RAPID_COMMIT && l != 0))
      ==> DecodeOne(data) == Fail(OptionTooLong) && DecodeOptions(data) == Fail(OptionTooLong)
  {
  }

  /** An IA_NA option whose nested part is 1 to 3 bytes fails as too short. */
  lemma IaNaNestedRemainderTooShort(data: Bytes)
    requires Framed(data) && data[1] == IA_NA
    requires 12 < DeclaredLen(data) < 16
    ensures DecodeOne(data) == Fail(OptionTooShort)
  {
    var end := End(data);
    assert |data[16..end]| < 4;
    assert DecodeNested(data, 16, end) == Fail(OptionTooShort);
    assert DecodeIaNa(data) == Fail(OptionTooShort);
  }

  /** The nested lists of IA_NA, Next Hop and Route Prefix are decoded from
      offsets 16, 20 and 26 to the end of the body, and a failure there fails
      the enclosing option with the same error. */
  lemma NestedFailurePropagates(data: Bytes, start: nat)
    requires Framed(data) && DeclaredLen(data) <= 65531
    requires (data[1] == IA_NA && start == 16) || (data[1] == NEXT_HOP && start == 20)
             || (data[1] == ROUTE_PREFIX && start == 26)
    requires start < End(data)
    requires DecodeOptions(data[start..End(data)]).Fail?
    ensures DecodeOne(data) == Fail(DecodeOptions(data[start..End(data)]).error)
  {
    var end := End(data);
    var e := DecodeOptions(data[start..end]).error;
    assert DecodeNested(data, start, end) == Fail(e);
    if data[1] == IA_NA {
      assert DecodeIaNa(data) == Fail(e);
    } else if data[1] == NEXT_HOP {
      assert DecodeNextHop(data) == Fail(e);
    } else {
      assert DecodeRoutePrefix(data) == Fail(e);
    }
  }

  /** ... and never written: the encoding does not depend on the metric. */
  lemma MetricNotWritten(o: Option, m: uint8)
    requires o.RoutePrefix?
    ensures Marshal(o.(metric := m)) == Marshal(o)
  {
  }

  /** Re-encoding a decoded elapsed time reproduces the wire value. */
  lemma ElapsedReencode(w: uint16)
    ensures ElapsedWire(w * CENTISECOND) == w
  {
    ElapsedRoundTrip(w * CENTISECOND);
  }
}
