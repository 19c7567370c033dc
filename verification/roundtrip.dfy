/** The value round trip of the option codec: every valid option, and every
    non-empty list of valid options, decodes back from its encoding. */
module RoundTrip {
  import opened Wire
  import Duid
  import ClassData
  import opened Options
  import opened OptionDecode
  import OptionLaws

  /** The header of an encoded option that fits: its type code, a declared
      length equal to the body's size, and the body in place. */
  lemma Header(o: Option, rest: Bytes)
    requires Addresses16(o) && Size(o) <= 65535
    ensures var data := Marshal(o) + rest;
      && |data| >= Size(o) >= 4 && data[1] == Code(o)
      && DeclaredLen(data) == Size(o) - 4
      && End(data) == Size(o)
      && data[4..Size(o)] == Body(o)
  {
    var m := Marshal(o);
    var data := m + rest;
    OptionLaws.MarshalLayout(o);
    assert |m| == Size(o) == 4 + Len(o);
    assert data[..|m|] == m;
    Uint16AtWithin(data, 0, m, 2, Len(o));
    assert data[1] == m[1] == Be16(Code(o))[1];
    SliceWithin(data, 0, m, 4, |m|);
    assert m[4..|m|] == m[4..];
  }

  /** What the nested-list case of the round trip assumes of the children. */
  predicate NestedDecodes(os: seq<Option>)
  {
    |os| == 0 || DecodeOptions(ListMarshal(os)) == Ok(os)
  }

  lemma ListSizePositive(os: seq<Option>)
    ensures ListSize(os) == 0 <==> |os| == 0
  {
  }

  lemma ClassDataSizePositive(cd: seq<Bytes>)
    ensures ClassData.Size(cd) == 0 <==> |cd| == 0
  {
  }

  lemma DuidCase(o: Option, rest: Bytes)
    requires (o.ClientId? || o.ServerId?) && Valid(o)
    ensures var data := Marshal(o) + rest;
      Framed(data) && DecodeOne(data) == Ok([o])
  {
    Header(o, rest);
    Duid.DecodeMarshal(o.duid);
  }

  /** The layout of an IA_NA body. */
  lemma IaNaBody(o: Option)
    requires o.IaNa?
    ensures var b := Body(o);
      && |b| >= 12
      && b[0..4] == Be32(o.iaid)
      && b[4..8] == Be32(o.t1 % TWO32)
      && b[8..12] == Be32(o.t2 % TWO32)
      && b[12..] == ListMarshal(o.options)
  {
    var b := Body(o);
    var x, y, z := Be32(o.iaid), Be32(o.t1 % TWO32), Be32(o.t2 % TWO32);
    assert b == (x + y + z) + ListMarshal(o.options);
    assert b[..12] == x + y + z;
  }

  /** Where the fields of an encoded IA_NA option sit. */
  lemma IaNaFields(o: Option, rest: Bytes)
    requires o.IaNa? && Addresses16(o) && Size(o) <= 65535
    requires 0 <= o.t1 < TWO32 && 0 <= o.t2 < TWO32
    ensures var data := Marshal(o) + rest;
      && |data| >= Size(o) >= 16
      && Uint32At(data, 4) == o.iaid
      && Uint32At(data, 8) == o.t1
      && Uint32At(data, 12) == o.t2
      && data[16..Size(o)] == ListMarshal(o.options)
  {
    var data := Marshal(o) + rest;
    Header(o, rest);
    IaNaBody(o);
    var b := Body(o);
    ModSmall(o.t1, TWO32);
    ModSmall(o.t2, TWO32);
    Uint32AtWithin(data, 4, b, 0, o.iaid);
    Uint32AtWithin(data, 4, b, 4, o.t1);
    Uint32AtWithin(data, 4, b, 8, o.t2);
    SliceWithin(data, 4, b, 12, |b|);
  }

  lemma IaNaCase(o: Option, rest: Bytes)
    requires o.IaNa? && Valid(o) && NestedDecodes(o.options)
    ensures var data := Marshal(o) + rest;
      Framed(data) && DecodeOne(data) == Ok([o])
  {
    var data := Marshal(o) + rest;
    OptionLaws.ValidAddresses16(o);
    Header(o, rest);
    IaNaFields(o, rest);
    ListSizePositive(o.options);
    if |o.options| > 0 {
      assert DecodeNested(data, 16, End(data)) == Ok(o.options);
    }
    assert DecodeIaNa(data) == Ok(o);
  }

  /** The layout of an IA Address body. */
  lemma IaAddressBody(o: Option)
    requires o.IaAddress? && |o.address| == 16
    ensures var b := Body(o);
      && |b| == 24
      && b[0..16] == o.address
      && b[16..20] == Be32(o.preferredLifetime % TWO32)
      && b[20..24] == Be32(o.validLifetime % TWO32)
  {
    var b := Body(o);
    var p, v := Be32(o.preferredLifetime % TWO32), Be32(o.validLifetime % TWO32);
    assert b == (o.address + p) + v;
    assert b[..20] == o.address + p;
  }

  /** Where the fields of an encoded IA Address option sit. */
  lemma IaAddressFields(o: Option, rest: Bytes)
    requires o.IaAddress? && |o.address| == 16
    requires 0 <= o.preferredLifetime < TWO32 && 0 <= o.validLifetime < TWO32
    ensures var data := Marshal(o) + rest;
      && |data| >= Size(o) == 28
      && data[4..20] == o.address
      && Uint32At(data, 20) == o.preferredLifetime
      && Uint32At(data, 24) == o.validLifetime
  {
    var data := Marshal(o) + rest;
    Header(o, rest);
    IaAddressBody(o);
    var b := Body(o);
    ModSmall(o.preferredLifetime, TWO32);
    ModSmall(o.validLifetime, TWO32);
    SliceWithin(data, 4, b, 0, 16);
    Uint32AtWithin(data, 4, b, 16, o.preferredLifetime);
    Uint32AtWithin(data, 4, b, 20, o.validLifetime);
  }

  lemma IaAddressCase(o: Option, rest: Bytes)
    requires o.IaAddress? && Valid(o)
    ensures var data := Marshal(o) + rest;
      Framed(data) && DecodeOne(data) == Ok([o])
  {
    var data := Marshal(o) + rest;
    Header(o, rest);
    IaAddressFields(o, rest);
    assert DecodeIaAddress(data) == Ok(o);
  }

  lemma OptionRequestCase(o: Option, rest: Bytes)
    requires o.OptionRequest? && Valid(o)
    ensures var data := Marshal(o) + rest;
      Framed(data) && DecodeOne(data) == Ok([o])
  {
    Header(o, rest);
    OptionLaws.RequestedCodesWords(o.requested);
  }

  lemma ElapsedTimeCase(o: Option, rest: Bytes)
    requires o.ElapsedTime? && Valid(o)
    ensures var data := Marshal(o) + rest;
      Framed(data) && DecodeOne(data) == Ok([o])
  {
    var data := Marshal(o) + rest;
    Header(o, rest);
    Uint16AtWithin(data, 4, Body(o), 0, ElapsedWire(o.elapsed));
    OptionLaws.ElapsedRoundTrip(o.elapsed);
  }

  lemma StatusCodeCase(o: Option, rest: Bytes)
    requires o.StatusCode? && Valid(o)
    ensures var data := Marshal(o) + rest;
      Framed(data) && DecodeOne(data) == Ok([o])
  {
    var data := Marshal(o) + rest;
    Header(o, rest);
    var b := Body(o);
    assert b[0..2] == Be16(o.code) && b[2..] == o.message;
    Uint16AtWithin(data, 4, b, 0, o.code);
    SliceWithin(data, 4, b, 2, |b|);
  }

  lemma UserClassDecodes(o: Option, rest: Bytes)
    requires o.UserClass? && Size(o) <= 65535
    ensures var data := Marshal(o) + rest;
      Framed(data) && data[1] == USER_CLASS && DecodeUserClass(data) == Ok(o)
  {
    var data := Marshal(o) + rest;
    Header(o, rest);
    assert data[4..Size(o)] == ClassData.Encode(o.classData);
    ClassDataSizePositive(o.classData);
    ClassData.DecodeEncode(o.classData);
  }

  lemma UserClassCase(o: Option, rest: Bytes)
    requires o.UserClass? && Valid(o)
    ensures var data := Marshal(o) + rest;
      Framed(data) && DecodeOne(data) == Ok([o])
  {
    var data := Marshal(o) + rest;
    UserClassDecodes(o, rest);
    var r := DecodeUserClass(data);
    assert Handled(data[1]) && data[1] == 15;
    assert DecodeOne(data) == Ok([r.value]);
  }

  /** Where the fields of an encoded Vendor Class option sit. */
  lemma VendorClassFields(o: Option, rest: Bytes)
    requires o.VendorClass? && Size(o) <= 65535
    ensures var data := Marshal(o) + rest;
      && |data| >= Size(o) >= 8
      && Uint32At(data, 4) == o.enterpriseNumber
      && data[8..Size(o)] == ClassData.Encode(o.classData)
  {
    var data := Marshal(o) + rest;
    Header(o, rest);
    var b := Body(o);
    assert b[0..4] == Be32(o.enterpriseNumber) && b[4..] == ClassData.Encode(o.classData);
    Uint32AtWithin(data, 4, b, 0, o.enterpriseNumber);
    SliceWithin(data, 4, b, 4, |b|);
  }

  lemma VendorClassDecodes(o: Option, rest: Bytes)
    requires o.VendorClass? && Size(o) <= 65535
    ensures var data := Marshal(o) + rest;
      Framed(data) && data[1] == VENDOR_CLASS && DecodeVendorClass(data) == Ok(o)
  {
    Header(o, rest);
    VendorClassFields(o, rest);
    ClassDataSizePositive(o.classData);
    ClassData.DecodeEncode(o.classData);
  }

  lemma VendorClassCase(o: Option, rest: Bytes)
    requires o.VendorClass? && Valid(o)
    ensures var data := Marshal(o) + rest;
      Framed(data) && DecodeOne(data) == Ok([o])
  {
    var data := Marshal(o) + rest;
    VendorClassDecodes(o, rest);
    var r := DecodeVendorClass(data);
    assert Handled(data[1]) && data[1] == 16;
    assert DecodeOne(data) == Ok([r.value]);
  }

  lemma BootFileUrlCase(o: Option, rest: Bytes)
    requires o.BootFileUrl? && Valid(o)
    ensures var data := Marshal(o) + rest;
      Framed(data) && DecodeOne(data) == Ok([o])
  {
    Header(o, rest);
  }

  lemma BootFileParametersDecodes(o: Option, rest: Bytes)
    requires o.BootFileParameters? && Size(o) <= 65535
    ensures var data := Marshal(o) + rest;
      Framed(data) && data[1] == BOOT_FILE_PARAMETERS && DecodeBootFileParameters(data) == Ok(o)
  {
    var data := Marshal(o) + rest;
    Header(o, rest);
    assert data[4..Size(o)] == ClassData.Encode(o.parameters);
    ClassDataSizePositive(o.parameters);
    ClassData.DecodeEncode(o.parameters);
  }

  lemma BootFileParametersCase(o: Option, rest: Bytes)
    requires o.BootFileParameters? && Valid(o)
    ensures var data := Marshal(o) + rest;
      Framed(data) && DecodeOne(data) == Ok([o])
  {
    var data := Marshal(o) + rest;
    BootFileParametersDecodes(o, rest);
    var r := DecodeBootFileParameters(data);
    assert Handled(data[1]) && data[1] == 60;
    assert DecodeOne(data) == Ok([r.value]);
  }

  /** The architecture-type loop does not abort on an even length that
      lies within the input and does not wrap. */
  lemma {:induction false} ArchTypesInBounds(data: Bytes, l: uint16, i: nat)
    requires i % 2 == 0 && l % 2 == 0 && i <= l <= 65531 && 4 + l <= |data|
    ensures ArchTypes(data, l, i).Ok?
    decreases l - i
  {
    if i < l {
      ArchTypesInBounds(data, l, i + 2);
      assert (4 + i) % TWO16 == 4 + i && (6 + i) % TWO16 == 6 + i;
    }
  }

  /** The `j`-th architecture type sits at offset `4 + 2 * j`. */
  lemma ArchWordAt(data: Bytes, ts: seq<uint16>, j: nat)
    requires 4 + 2 * |ts| <= |data|
    requires data[4..4 + 2 * |ts|] == Words(ts)
    requires j < |ts|
    ensures Uint16At(data, 4 + 2 * j) == ts[j]
  {
    var w := Words(ts);
    OptionLaws.WordsAt(ts, j);
    assert data[4 + 2 * j] == w[2 * j] && data[4 + 2 * j + 1] == w[2 * j + 1];
  }

  /** The architecture-type loop reads back every encoded word. */
  lemma ArchTypesWords(data: Bytes, ts: seq<uint16>)
    requires 4 + 2 * |ts| <= |data| && 2 * |ts| <= 65531
    requires forall k | 0 <= k < |ts| :: Uint16At(data, 4 + 2 * k) == ts[k]
    ensures ArchTypes(data, 2 * |ts|, 0) == Ok(ts)
  {
    ArchTypesInBounds(data, 2 * |ts|, 0);
    var r := ArchTypes(data, 2 * |ts|, 0).value;
    assert |r| == |ts|;
    forall k | 0 <= k < |ts| ensures r[k] == ts[k] {
      assert r[k] == Uint16At(data, 4 + 0 + 2 * k);
    }
    assert r == ts;
  }

  lemma ArchTypesDecodes(o: Option, rest: Bytes)
    requires o.ClientSystemArchitectureType? && Valid(o)
    ensures var data := Marshal(o) + rest;
      Framed(data) && data[1] == CLIENT_ARCH_TYPE && DecodeArchTypes(data) == Ok(o)
  {
    var data := Marshal(o) + rest;
    Header(o, rest);
    if |o.types| > 0 {
      forall k | 0 <= k < |o.types| ensures Uint16At(data, 4 + 2 * k) == o.types[k] {
        ArchWordAt(data, o.types, k);
      }
      ArchTypesWords(data, o.types);
    }
  }

  lemma ArchTypeCase(o: Option, rest: Bytes)
    requires o.ClientSystemArchitectureType? && Valid(o)
    ensures var data := Marshal(o) + rest;
      Framed(data) && DecodeOne(data) == Ok([o])
  {
    var data := Marshal(o) + rest;
    ArchTypesDecodes(o, rest);
    assert Handled(data[1]) && data[1] == 61;
  }

  lemma InterfaceIdCase(o: Option, rest: Bytes)
    requires o.ClientNetworkInterfaceIdentifier? && Valid(o)
    ensures var data := Marshal(o) + rest;
      Framed(data) && DecodeOne(data) == Ok([o])
  {
    Header(o, rest);
  }

  /** Where the fields of an encoded Next Hop option sit. */
  lemma NextHopFields(o: Option, rest: Bytes)
    requires o.NextHop? && Addresses16(o) && Size(o) <= 65535
    ensures var data := Marshal(o) + rest;
      && |data| >= Size(o) >= 20
      && data[4..20] == o.address
      && data[20..Size(o)] == ListMarshal(o.options)
  {
    var data := Marshal(o) + rest;
    Header(o, rest);
    var b := Body(o);
    assert b[0..16] == o.address && b[16..] == ListMarshal(o.options);
    SliceWithin(data, 4, b, 0, 16);
    SliceWithin(data, 4, b, 16, |b|);
  }

  lemma NextHopCase(o: Option, rest: Bytes)
    requires o.NextHop? && Valid(o) && NestedDecodes(o.options)
    ensures var data := Marshal(o) + rest;
      Framed(data) && DecodeOne(data) == Ok([o])
  {
    var data := Marshal(o) + rest;
    OptionLaws.ValidAddresses16(o);
    Header(o, rest);
    NextHopFields(o, rest);
    ListSizePositive(o.options);
    if |o.options| > 0 {
      assert DecodeNested(data, 20, End(data)) == Ok(o.options);
    }
    assert DecodeNextHop(data) == Ok(o);
  }

  /** The layout of a Route Prefix body. */
  lemma RoutePrefixBody(o: Option)
    requires o.RoutePrefix? && |o.prefix| == 16
    ensures var b := Body(o);
      && |b| >= 22
      && b[0..4] == Be32(o.routeLifetime)
      && b[4] == o.prefixLength && b[5] == PreferenceByte(o.preference)
      && b[6..22] == o.prefix
      && b[22..] == ListMarshal(o.options)
  {
    var b := Body(o);
    var lt := Be32(o.routeLifetime);
    var pb: Bytes := [o.prefixLength, PreferenceByte(o.preference)];
    assert b == (lt + pb + o.prefix) + ListMarshal(o.options);
    assert b[..22] == lt + pb + o.prefix;
  }

  /** Where the fields of an encoded Route Prefix option sit. */
  lemma RoutePrefixFields(o: Option, rest: Bytes)
    requires o.RoutePrefix? && Addresses16(o) && Size(o) <= 65535
    ensures var data := Marshal(o) + rest;
      && |data| >= Size(o) >= 26
      && Uint32At(data, 4) == o.routeLifetime
      && data[8] == o.prefixLength
      && data[9] == PreferenceByte(o.preference)
      && data[10..26] == o.prefix
      && data[26..Size(o)] == ListMarshal(o.options)
  {
    RoutePrefixFixedAt(o, rest);
    RoutePrefixNestedAt(o, rest);
  }

  lemma RoutePrefixFixedAt(o: Option, rest: Bytes)
    requires o.RoutePrefix? && Addresses16(o) && Size(o) <= 65535
    ensures var data := Marshal(o) + rest;
      && |data| >= Size(o) >= 26
      && Uint32At(data, 4) == o.routeLifetime
      && data[8] == o.prefixLength
      && data[9] == PreferenceByte(o.preference)
      && data[10..26] == o.prefix
  {
    var data := Marshal(o) + rest;
    Header(o, rest);
    RoutePrefixBody(o);
    var b := Body(o);
    Uint32AtWithin(data, 4, b, 0, o.routeLifetime);
    assert data[8] == b[4] && data[9] == b[5];
    SliceWithin(data, 4, b, 6, 22);
  }

  lemma RoutePrefixNestedAt(o: Option, rest: Bytes)
    requires o.RoutePrefix? && Addresses16(o) && Size(o) <= 65535
    ensures var data := Marshal(o) + rest;
      |data| >= Size(o) >= 26 && data[26..Size(o)] == ListMarshal(o.options)
  {
    var data := Marshal(o) + rest;
    Header(o, rest);
    RoutePrefixBody(o);
    var b := Body(o);
    SliceWithin(data, 4, b, 22, |b|);
  }

  lemma RoutePrefixCase(o: Option, rest: Bytes)
    requires o.RoutePrefix? && Valid(o) && NestedDecodes(o.options)
    ensures var data := Marshal(o) + rest;
      Framed(data) && DecodeOne(data) == Ok([o])
  {
    var data := Marshal(o) + rest;
    OptionLaws.ValidAddresses16(o);
    Header(o, rest);
    RoutePrefixFields(o, rest);
    OptionLaws.PreferenceRoundTrip(o.preference);
    ListSizePositive(o.options);
    if |o.options| > 0 {
      assert DecodeNested(data, 26, End(data)) == Ok(o.options);
    }
    assert DecodeRoutePrefix(data) == Ok(o);
  }

  /** Every valid option decodes back from its encoding, whatever follows it. */
  lemma {:induction false} DecodeOneMarshal(o: Option, rest: Bytes)
    requires Valid(o)
    ensures var data := Marshal(o) + rest;
      Framed(data) && End(data) == Size(o) && DecodeOne(data) == Ok([o])
    decreases o, 1
  {
    OptionLaws.ValidAddresses16(o);
    Header(o, rest);
    match o
    case ClientId(_) => DuidCase(o, rest);
    case ServerId(_) => DuidCase(o, rest);
    case IaNa(_, _, _, os) =>
      if |os| > 0 { DecodeListMarshal(os); }
      IaNaCase(o, rest);
    case IaAddress(_, _, _) => IaAddressCase(o, rest);
    case OptionRequest(_) => OptionRequestCase(o, rest);
    case ElapsedTime(_) => ElapsedTimeCase(o, rest);
    case StatusCode(_, _) => StatusCodeCase(o, rest);
    case RapidCommit =>
    case UserClass(_) => UserClassCase(o, rest);
    case VendorClass(_, _) => VendorClassCase(o, rest);
    case BootFileUrl(_) => BootFileUrlCase(o, rest);
    case BootFileParameters(_) => BootFileParametersCase(o, rest);
    case ClientSystemArchitectureType(_) => ArchTypeCase(o, rest);
    case ClientNetworkInterfaceIdentifier(_, _, _) => InterfaceIdCase(o, rest);
    case NextHop(_, os) =>
      if |os| > 0 { DecodeListMarshal(os); }
      NextHopCase(o, rest);
    case RoutePrefix(_, _, _, _, _, os) =>
      if |os| > 0 { DecodeListMarshal(os); }
      RoutePrefixCase(o, rest);
  }

  /** `DecodeOptions` inverts `Options.Marshal` on every non-empty list of
      valid options.  (An empty list encodes to no bytes, which
      `DecodeOptions` rejects as too short.) */
  lemma {:induction false} DecodeListMarshal(os: seq<Option>)
    requires |os| > 0 && AllValid(os)
    ensures DecodeOptions(ListMarshal(os)) == Ok(os)
    decreases os, 0
  {
    var data := ListMarshal(os);
    var tail := ListMarshal(os[1..]);
    assert data == Marshal(os[0]) + tail;
    DecodeOneMarshal(os[0], tail);
    if |os| > 1 {
      DecodeListMarshal(os[1..]);
      assert data[Size(os[0])..] == tail;
      assert os == [os[0]] + os[1..];
    } else {
      assert tail == [];
      assert os == [os[0]];
    }
  }
}
