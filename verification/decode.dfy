/** `DecodeOptions` (option.go): the loop over type-length-value headers and
    the per-type body decoders, recursing into the nested lists of IA_NA,
    Next Hop and Route Prefix.

    The arithmetic is the Go arithmetic.  The type code is read as 16 bits
    and converted to the 8-bit `OptionType`, so only its low byte selects the
    decoder.  The body end `4+optionLen` is a 16-bit sum: for a declared length
    of 0xFFFC to 0xFFFF it wraps to 0..3, the length guard passes, and then
    either a slice aborts (`Panic`) or, when nothing is sliced and the sum is
    0, the cursor never moves (`Hang`).
 */
module OptionDecode {
  import opened Wire
  import Duid
  import ClassData
  import opened Options

  /** The declared body length of the option at the head of `data`. */
  function DeclaredLen(data: Bytes): uint16
    requires |data| >= 4
  {
    Uint16At(data, 2)
  }

  /** `4+optionLen` in 16-bit arithmetic: where the option at the head of
      `data` ends, and where decoding resumes. */
  function End(data: Bytes): (e: uint16)
    requires |data| >= 4
    ensures DeclaredLen(data) <= 65531 ==> e == 4 + DeclaredLen(data)
    ensures DeclaredLen(data) > 65531 ==> e < 4
  {
    (4 + DeclaredLen(data)) % TWO16
  }

  /** The guards before the `switch` have passed: a header is present and
      the input is at least as long as the (16-bit) end of the option. */
  predicate Framed(data: Bytes)
  {
    |data| >= 4 && End(data) <= |data|
  }

  /** `DecodeOptions`: decodes every option of `data` in order; options of an
      unhandled type are skipped. */
  function DecodeOptions(data: Bytes): (r: Result<seq<Option>>)
    ensures |data| < 4 ==> r == Fail(OptionTooShort)
    ensures |data| >= 4 && |data| < End(data) ==> r == Fail(OptionTooShort)
    ensures r.Ok? ==> |r.value| <= |data|
    decreases |data|, 3
  {
    if |data| < 4 then Fail(OptionTooShort)
    else if |data| < End(data) then Fail(OptionTooShort)
    else
      var current :- DecodeOne(data);
      var end := End(data);
      if |data| <= end then Ok(current)
      else if end == 0 then Hang
      else
        var rest :- DecodeOptions(data[end..]);
        Ok(current + rest)
  }

  /** The nested list of an IA_NA, Next Hop or Route Prefix option,
      `DecodeOptions(data[start:end])`. */
  function DecodeNested(data: Bytes, start: nat, end: int): (r: Result<seq<Option>>)
    requires start >= 1
    decreases |data|, 0
  {
    if start <= end <= |data| then DecodeOptions(data[start..end]) else Panic
  }

  /** How a container option's outcome `r` follows from the outcome `n` of
      its nested list: it succeeds exactly when the list does, holding that
      list, and otherwise ends the same way, with the same error. */
  predicate NestedOutcome(r: Result<Option>, n: Result<seq<Option>>)
  {
    && (r.Ok? <==> n.Ok?)
    && (r.Ok? ==> (r.value.IaNa? || r.value.NextHop? || r.value.RoutePrefix?) && r.value.options == n.value)
    && (!r.Ok? ==> r == n.PropagateFailure())
  }

  /** The option at the head of `data` as a list of zero (skipped type) or one
      option. */
  function DecodeOne(data: Bytes): (r: Result<seq<Option>>)
    requires Framed(data)
    ensures r.Ok? ==> |r.value| <= 1
    ensures r.Ok? && |r.value| == 1 ==> Code(r.value[0]) == data[1]
    ensures r.Ok? && |r.value| == 0 ==> !Handled(data[1])
    ensures !Handled(data[1]) ==> r == Ok([])
    decreases |data|, 2
  {
    var t := data[1];
    if !Handled(t) then Ok([])
    else
      var o :- if t == CLIENT_ID || t == SERVER_ID then DecodeIdentifier(data)
               else if t == IA_NA then DecodeIaNa(data)
               else if t == IA_ADDRESS then DecodeIaAddress(data)
               else if t == OPTION_REQUEST then DecodeOptionRequest(data)
               else if t == ELAPSED_TIME then DecodeElapsedTime(data)
               else if t == STATUS_CODE then DecodeStatusCode(data)
               else if t == RAPID_COMMIT then DecodeRapidCommit(data)
               else if t == USER_CLASS then DecodeUserClass(data)
               else if t == VENDOR_CLASS then DecodeVendorClass(data)
               else if t == BOOT_FILE_URL then DecodeBootFileUrl(data)
               else if t == BOOT_FILE_PARAMETERS then DecodeBootFileParameters(data)
               else if t == CLIENT_ARCH_TYPE then DecodeArchTypes(data)
               else if t == CLIENT_NETWORK_INTERFACE_ID then DecodeInterfaceId(data)
               else if t == NEXT_HOP then DecodeNextHop(data)
               else DecodeRoutePrefix(data);
      Ok([o])
  }

  /** Client and Server Identifier: the whole body is a DUID. */
  function DecodeIdentifier(data: Bytes): (r: Result<Option>)
    requires Framed(data) && data[1] in {CLIENT_ID, SERVER_ID}
    ensures r.Ok? ==> Code(r.value) == data[1]
    ensures DeclaredLen(data) > 65531 ==> r == Panic
    ensures DeclaredLen(data) <= 65531 ==> (r.Ok? <==> Duid.Decode(data[4..End(data)]).Ok?)
    ensures DeclaredLen(data) <= 65531 && r.Ok? ==> r.value.duid == Duid.Decode(data[4..End(data)]).value
    ensures DeclaredLen(data) <= 65531 && !r.Ok? ==> r == Duid.Decode(data[4..End(data)]).PropagateFailure()
    decreases |data|, 1
  {
    var body :- Slice(data, 4, End(data));
    var duid :- Duid.Decode(body);
    Ok(if data[1] == CLIENT_ID then ClientId(duid) else ServerId(duid))
  }

  /** IA_NA: IAID, T1 and T2 as raw 32-bit counts, then a nested list when
      the body is longer than 12 bytes. */
  function DecodeIaNa(data: Bytes): (r: Result<Option>)
    requires Framed(data) && data[1] == IA_NA
    ensures DeclaredLen(data) < 12 ==> r == Fail(OptionTooShort)
    ensures DeclaredLen(data) > 65531 ==> r == Panic
    ensures r.Ok? ==> r.value.IaNa? && 12 <= DeclaredLen(data) <= 65531
    ensures r.Ok? ==> && r.value.iaid == Uint32At(data, 4)
                      && r.value.t1 == Uint32At(data, 8) && r.value.t2 == Uint32At(data, 12)
    ensures DeclaredLen(data) == 12 ==> r.Ok? && r.value.options == []
    ensures 12 < DeclaredLen(data) <= 65531 ==>
              NestedOutcome(r, DecodeOptions(data[16..End(data)]))
    decreases |data|, 1
  {
    var l := DeclaredLen(data);
    if l < 12 then Fail(OptionTooShort)
    else
      var iaid :- ReadUint32(data, 4);
      var t1 :- ReadUint32(data, 8);
      var t2 :- ReadUint32(data, 12);
      var nested :- if l > 12 then DecodeNested(data, 16, End(data)) else Ok([]);
      Ok(IaNa(iaid, t1, t2, nested))
  }

  /** IA Address: a 16-byte address and two lifetimes; bytes after the
      first 24 of the body are ignored. */
  function DecodeIaAddress(data: Bytes): (r: Result<Option>)
    requires Framed(data) && data[1] == IA_ADDRESS
    ensures DeclaredLen(data) < 24 ==> r == Fail(OptionTooShort)
    ensures 24 <= DeclaredLen(data) <= 65531 ==> r.Ok?
    ensures r.Ok? ==> r.value.IaAddress? && |r.value.address| == 16
    decreases |data|, 1
  {
    if DeclaredLen(data) < 24 then Fail(OptionTooShort)
    else
      var address :- Slice(data, 4, 20);
      var preferred :- ReadUint32(data, 20);
      var valid :- ReadUint32(data, 24);
      Ok(IaAddress(address, preferred, valid))
  }

  function DecodeOptionRequest(data: Bytes): (r: Result<Option>)
    requires Framed(data) && data[1] == OPTION_REQUEST
    ensures DeclaredLen(data) <= 65531 <==> r.Ok?
    ensures DeclaredLen(data) > 65531 ==> r == Panic
    ensures r.Ok? ==> && r.value.OptionRequest?
                      && |r.value.requested| == DeclaredLen(data) / 2
                      && forall k | 0 <= k < |r.value.requested| :: r.value.requested[k] == data[5 + 2 * k]
    decreases |data|, 1
  {
    var l := DeclaredLen(data);
    var codes :- if l > 0 then Slice(data, 4, End(data)) else Ok([]);
    Ok(OptionRequest(RequestedCodes(codes)))
  }

  /** Elapsed Time: exactly 2 bytes, hundredths of a second, held as
      nanoseconds. */
  function DecodeElapsedTime(data: Bytes): (r: Result<Option>)
    requires Framed(data) && data[1] == ELAPSED_TIME
    ensures DeclaredLen(data) < 2 ==> r == Fail(OptionTooShort)
    ensures DeclaredLen(data) > 2 ==> r == Fail(OptionTooLong)
    ensures DeclaredLen(data) == 2 <==> r.Ok?
    ensures r.Ok? ==> r.value.ElapsedTime?
                      && r.value.elapsed == ((data[4] as int) * 0x100 + data[5] as int) * CENTISECOND
    decreases |data|, 1
  {
    var l := DeclaredLen(data);
    if l < 2 then Fail(OptionTooShort)
    else if l > 2 then Fail(OptionTooLong)
    else Ok(ElapsedTime(Uint16At(data, 4) * CENTISECOND))
  }

  /** Status Code: a 16-bit code and the rest of the body as the message. */
  function DecodeStatusCode(data: Bytes): (r: Result<Option>)
    requires Framed(data) && data[1] == STATUS_CODE
    ensures DeclaredLen(data) < 2 ==> r == Fail(OptionTooShort)
    ensures 2 <= DeclaredLen(data) <= 65531 <==> r.Ok?
    ensures DeclaredLen(data) > 65531 ==> r == Panic
    ensures r.Ok? ==> && r.value.StatusCode?
                      && r.value.code == (data[4] as int) * 0x100 + data[5] as int
                      && r.value.message == data[6..End(data)]
    decreases |data|, 1
  {
    if DeclaredLen(data) < 2 then Fail(OptionTooShort)
    else
      var message :- Slice(data, 6, End(data));
      Ok(StatusCode(Uint16At(data, 4), message))
  }

  function DecodeRapidCommit(data: Bytes): (r: Result<Option>)
    requires Framed(data) && data[1] == RAPID_COMMIT
    ensures r.Ok? <==> DeclaredLen(data) == 0
    ensures r.Ok? ==> r.value == RapidCommit
    ensures !r.Ok? ==> r == Fail(OptionTooLong)
    decreases |data|, 1
  {
    if DeclaredLen(data) != 0 then Fail(OptionTooLong) else Ok(RapidCommit)
  }

  /** User Class: the body is class data. */
  function DecodeUserClass(data: Bytes): (r: Result<Option>)
    requires Framed(data) && data[1] == USER_CLASS
    ensures r.Ok? || r.Panic?
    ensures r.Ok? ==> r.value.UserClass?
    ensures DeclaredLen(data) == 0 ==> r == Ok(UserClass([]))
    ensures DeclaredLen(data) > 65531 ==> r == Panic
    ensures 0 < DeclaredLen(data) <= 65531 ==>
              && (r.Ok? <==> ClassData.Decode(data[4..End(data)]).Ok?)
              && (r.Ok? ==> r.value.classData == ClassData.Decode(data[4..End(data)]).value)
    decreases |data|, 1
  {
    var l := DeclaredLen(data);
    var body :- if l > 0 then Slice(data, 4, End(data)) else Ok([]);
    var cd :- if l > 0 then ClassData.Decode(body) else Ok([]);
    Ok(UserClass(cd))
  }

  /** Vendor Class: an enterprise number, read whatever the declared length,
      then class data. */
  function DecodeVendorClass(data: Bytes): (r: Result<Option>)
    requires Framed(data) && data[1] == VENDOR_CLASS
    ensures r.Ok? || r.Panic?
    ensures |data| < 8 ==> r == Panic
    ensures r.Ok? ==> r.value.VendorClass? && r.value.enterpriseNumber == Uint32At(data, 4)
    ensures DeclaredLen(data) <= 4 && |data| >= 8 ==> r.Ok? && r.value.classData == []
    ensures DeclaredLen(data) > 65531 ==> r == Panic
    ensures 4 < DeclaredLen(data) <= 65531 ==>
              && (r.Ok? <==> ClassData.Decode(data[8..End(data)]).Ok?)
              && (r.Ok? ==> r.value.classData == ClassData.Decode(data[8..End(data)]).value)
    decreases |data|, 1
  {
    var l := DeclaredLen(data);
    var en :- ReadUint32(data, 4);
    var body :- if l > 4 then Slice(data, 8, End(data)) else Ok([]);
    var cd :- if l > 4 then ClassData.Decode(body) else Ok([]);
    Ok(VendorClass(en, cd))
  }

  function DecodeBootFileUrl(data: Bytes): (r: Result<Option>)
    requires Framed(data) && data[1] == BOOT_FILE_URL
    ensures DeclaredLen(data) <= 65531 <==> r.Ok?
    ensures DeclaredLen(data) > 65531 ==> r == Panic
    ensures r.Ok? ==> r.value.BootFileUrl? && r.value.url == data[4..End(data)]
    decreases |data|, 1
  {
    var l := DeclaredLen(data);
    var url :- if l > 0 then Slice(data, 4, End(data)) else Ok([]);
    Ok(BootFileUrl(url))
  }

  /** Boot File Parameters: the body is a parameter list, in the class-data
      format. */
  function DecodeBootFileParameters(data: Bytes): (r: Result<Option>)
    requires Framed(data) && data[1] == BOOT_FILE_PARAMETERS
    ensures r.Ok? || r.Panic?
    ensures r.Ok? ==> r.value.BootFileParameters?
    ensures DeclaredLen(data) == 0 ==> r == Ok(BootFileParameters([]))
    ensures DeclaredLen(data) > 65531 ==> r == Panic
    ensures 0 < DeclaredLen(data) <= 65531 ==>
              && (r.Ok? <==> ClassData.Decode(data[4..End(data)]).Ok?)
              && (r.Ok? ==> r.value.parameters == ClassData.Decode(data[4..End(data)]).value)
    decreases |data|, 1
  {
    var l := DeclaredLen(data);
    var body :- if l > 0 then Slice(data, 4, End(data)) else Ok([]);
    var ps :- if l > 0 then ClassData.Decode(body) else Ok([]);
    Ok(BootFileParameters(ps))
  }

  /** Client System Architecture Type: 16-bit types, read by the loop below. */
  function DecodeArchTypes(data: Bytes): (r: Result<Option>)
    requires Framed(data) && data[1] == CLIENT_ARCH_TYPE
    ensures r.Ok? ==> r.value.ClientSystemArchitectureType?
    ensures DeclaredLen(data) == 0 ==> r == Ok(ClientSystemArchitectureType([]))
    ensures r.Ok? ==> && |r.value.types| == (DeclaredLen(data) + 1) / 2
                      && forall k | 0 <= k < |r.value.types| ::
                           6 + 2 * k <= |data| && r.value.types[k] == Uint16At(data, 4 + 2 * k)
    decreases |data|, 1
  {
    var l := DeclaredLen(data);
    var ts :- if l > 0 then ArchTypes(data, l, 0) else Ok([]);
    Ok(ClientSystemArchitectureType(ts))
  }

  /** The Client System Architecture Type loop: `for i := uint16(0); i <
      optionLen; i += 2`, reading `data[4+i:6+i]` with 16-bit offsets.  For an
      odd length the last read takes one byte past the body. */
  function ArchTypes(data: Bytes, l: uint16, i: nat): (r: Result<seq<uint16>>)
    requires i % 2 == 0 && i <= 65530
    ensures r.Ok? ==> |r.value| == if i < l then (l - i + 1) / 2 else 0
    ensures r.Ok? ==> forall k | 0 <= k < |r.value| ::
              6 + i + 2 * k <= |data| && r.value[k] == Uint16At(data, 4 + i + 2 * k)
    decreases TWO16 - i
  {
    if i >= l then Ok([])
    else
      // At i = 65530 the offsets wrap to 65534 and 0 and the slice aborts, so
      // the 16-bit counter never wraps back to 0.
      var lo := (4 + i) % TWO16;
      var hi := (6 + i) % TWO16;
      if !(lo <= hi <= |data|) || hi - lo < 2 then Panic
      else
        assert lo == 4 + i && hi == 6 + i;
        var rest :- ArchTypes(data, l, i + 2);
        var ts := [Uint16At(data, lo)] + rest;
        assert forall k | 0 <= k < |ts| :: 6 + i + 2 * k <= |data| && ts[k] == Uint16At(data, 4 + i + 2 * k) by {
          forall k | 0 <= k < |ts| ensures 6 + i + 2 * k <= |data| && ts[k] == Uint16At(data, 4 + i + 2 * k) {
            if k > 0 {
              assert ts[k] == rest[k - 1] && 4 + (i + 2) + 2 * (k - 1) == 4 + i + 2 * k;
            }
          }
        }
        Ok(ts)
  }

  /** Client Network Interface Identifier: exactly 3 bytes. */
  function DecodeInterfaceId(data: Bytes): (r: Result<Option>)
    requires Framed(data) && data[1] == CLIENT_NETWORK_INTERFACE_ID
    ensures r.Ok? <==> DeclaredLen(data) == 3
    ensures !r.Ok? ==> r == Fail(OptionTooShort)
    ensures r.Ok? ==> && r.value.ClientNetworkInterfaceIdentifier?
                      && [r.value.interfaceType, r.value.revisionMajor, r.value.revisionMinor]
                         == data[4..End(data)]
    decreases |data|, 1
  {
    if DeclaredLen(data) != 3 then Fail(OptionTooShort)
    else Ok(ClientNetworkInterfaceIdentifier(data[4], data[5], data[6]))
  }

  /** Next Hop: a 16-byte address, then a nested list when the body is
      longer than 16 bytes. */
  function DecodeNextHop(data: Bytes): (r: Result<Option>)
    requires Framed(data) && data[1] == NEXT_HOP
    ensures DeclaredLen(data) < 16 ==> r == Fail(OptionTooShort)
    ensures DeclaredLen(data) > 65531 ==> r == Panic
    ensures r.Ok? ==> r.value.NextHop? && 16 <= DeclaredLen(data) <= 65531
    ensures r.Ok? ==> r.value.address == data[4..20]
    ensures DeclaredLen(data) == 16 ==> r.Ok? && r.value.options == []
    ensures 16 < DeclaredLen(data) <= 65531 ==>
              NestedOutcome(r, DecodeOptions(data[20..End(data)]))
    decreases |data|, 1
  {
    var l := DeclaredLen(data);
    if l < 16 then Fail(OptionTooShort)
    else
      var address :- Slice(data, 4, 20);
      var nested :- if l > 16 then DecodeNested(data, 20, End(data)) else Ok([]);
      Ok(NextHop(address, nested))
  }

  /** Route Prefix: lifetime, prefix length, the preference bits of byte 9,
      a 16-byte prefix, then a nested list when the body is longer than 22
      bytes.  The metric is not on the wire. */
  function DecodeRoutePrefix(data: Bytes): (r: Result<Option>)
    requires Framed(data) && data[1] == ROUTE_PREFIX
    ensures DeclaredLen(data) < 22 ==> r == Fail(OptionTooShort)
    ensures DeclaredLen(data) > 65531 ==> r == Panic
    ensures r.Ok? ==> r.value.RoutePrefix? && 22 <= DeclaredLen(data) <= 65531 && r.value.metric == 0
    ensures r.Ok? ==> && r.value.routeLifetime == Uint32At(data, 4)
                      && r.value.prefixLength == data[8]
                      && r.value.preference == PreferenceOf(data[9])
                      && r.value.prefix == data[10..26]
    ensures r.Ok? ==> r.value.preference in {PREFERENCE_MEDIUM, PREFERENCE_HIGH, PREFERENCE_LOW}
    ensures DeclaredLen(data) == 22 ==> r.Ok? && r.value.options == []
    ensures 22 < DeclaredLen(data) <= 65531 ==>
              NestedOutcome(r, DecodeOptions(data[26..End(data)]))
    decreases |data|, 1
  {
    var l := DeclaredLen(data);
    if l < 22 then Fail(OptionTooShort)
    else
      // `data[10:26]` is the furthest of the fixed reads.
      var prefix :- Slice(data, 10, 26);
      var nested :- if l > 22 then DecodeNested(data, 26, End(data)) else Ok([]);
      Ok(RoutePrefix(Uint32At(data, 4), data[8], PreferenceOf(data[9]), 0, prefix, nested))
  }

  /** `OptionOptionRequest.decodeOptions`: one code per 2 bytes, each cut to
      its low byte by the 8-bit `OptionType`; an odd last byte is ignored. */
  function RequestedCodes(b: Bytes): (r: seq<uint8>)
    ensures |r| == |b| / 2
    ensures forall k :: 0 <= k < |r| ==> r[k] == b[2 * k + 1]
  {
    if |b| < 2 then [] else [b[1]] + RequestedCodes(b[2..])
  }
}
