/** DHCPv6 options (option.go): the option variants, their type codes, body
    lengths and encodings, and the same for option lists.

    Variants and their definitions:
      ClientId, ServerId, IaNa, IaAddress, OptionRequest, ElapsedTime,
      StatusCode, RapidCommit, UserClass, VendorClass  section 22 of RFC 3315
      BootFileUrl, BootFileParameters, ClientSystemArchitectureType,
      ClientNetworkInterfaceIdentifier                  section 3 of RFC 5970
      NextHop, RoutePrefix                               sections 5.1 and 5.2 of
                                                  draft-ietf-mif-dhcpv6-route-option-05
    IaNa, NextHop and RoutePrefix hold a nested option list.

    Durations are `time.Duration` values (int64 nanoseconds) holding whatever
    the codec puts there: T1, T2 and the IA Address lifetimes hold the raw
    32-bit wire counts, ElapsedTime holds real nanoseconds.  Addresses are
    `net.IP` byte slices of any length; only 16-byte ones encode as the wire
    format expects.
 */
module Options {
  import opened Wire
  import Duid
  import ClassData

  // Option type codes; `OptionType` is 8 bits wide.
  const CLIENT_ID: uint8 := 1
  const SERVER_ID: uint8 := 2
  const IA_NA: uint8 := 3
  const IA_ADDRESS: uint8 := 5
  const OPTION_REQUEST: uint8 := 6
  const ELAPSED_TIME: uint8 := 8
  const STATUS_CODE: uint8 := 13
  const RAPID_COMMIT: uint8 := 14
  const USER_CLASS: uint8 := 15
  const VENDOR_CLASS: uint8 := 16
  const BOOT_FILE_URL: uint8 := 59
  const BOOT_FILE_PARAMETERS: uint8 := 60
  const CLIENT_ARCH_TYPE: uint8 := 61
  const CLIENT_NETWORK_INTERFACE_ID: uint8 := 62
  const NEXT_HOP: uint8 := 242
  const ROUTE_PREFIX: uint8 := 243
  // Declared but not decoded.
  const AUTHENTICATION: uint8 := 11
  const INTERFACE_ID: uint8 := 18

  /** The codes `DecodeOptions` turns into an option; every other code is skipped. */
  predicate Handled(t: uint8)
  {
    t in {CLIENT_ID, SERVER_ID, IA_NA, IA_ADDRESS, OPTION_REQUEST, ELAPSED_TIME,
          STATUS_CODE, RAPID_COMMIT, USER_CLASS, VENDOR_CLASS, BOOT_FILE_URL,
          BOOT_FILE_PARAMETERS, CLIENT_ARCH_TYPE, CLIENT_NETWORK_INTERFACE_ID,
          NEXT_HOP, ROUTE_PREFIX}
  }

  // Route preferences (`RoutePreference`); 2 is unused.
  const PREFERENCE_MEDIUM: uint8 := 0
  const PREFERENCE_HIGH: uint8 := 1
  const PREFERENCE_LOW: uint8 := 3

  /** One elapsed-time wire unit, a hundredth of a second, in nanoseconds. */
  const CENTISECOND: int := 10_000_000

  datatype Option =
    | ClientId(duid: Duid.Duid)
    | ServerId(duid: Duid.Duid)
    | IaNa(iaid: uint32, t1: int64, t2: int64, options: seq<Option>)
    | IaAddress(address: Bytes, preferredLifetime: int64, validLifetime: int64)
    | OptionRequest(requested: seq<uint8>)
    | ElapsedTime(elapsed: int64)
    | StatusCode(code: uint16, message: Bytes)
    | RapidCommit
    | UserClass(classData: seq<Bytes>)
    | VendorClass(enterpriseNumber: uint32, classData: seq<Bytes>)
    | BootFileUrl(url: Bytes)
    | BootFileParameters(parameters: seq<Bytes>)
    | ClientSystemArchitectureType(types: seq<uint16>)
    | ClientNetworkInterfaceIdentifier(interfaceType: uint8, revisionMajor: uint8, revisionMinor: uint8)
    | NextHop(address: Bytes, options: seq<Option>)
    | RoutePrefix(routeLifetime: uint32, prefixLength: uint8, preference: uint8,
                  metric: uint8, prefix: Bytes, options: seq<Option>)

  /** `Type()` of each variant. */
  function Code(o: Option): (t: uint8)
    ensures Handled(t)
  {
    match o
    case ClientId(_) => CLIENT_ID
    case ServerId(_) => SERVER_ID
    case IaNa(_, _, _, _) => IA_NA
    case IaAddress(_, _, _) => IA_ADDRESS
    case OptionRequest(_) => OPTION_REQUEST
    case ElapsedTime(_) => ELAPSED_TIME
    case StatusCode(_, _) => STATUS_CODE
    case RapidCommit => RAPID_COMMIT
    case UserClass(_) => USER_CLASS
    case VendorClass(_, _) => VENDOR_CLASS
    case BootFileUrl(_) => BOOT_FILE_URL
    case BootFileParameters(_) => BOOT_FILE_PARAMETERS
    case ClientSystemArchitectureType(_) => CLIENT_ARCH_TYPE
    case ClientNetworkInterfaceIdentifier(_, _, _) => CLIENT_NETWORK_INTERFACE_ID
    case NextHop(_, _) => NEXT_HOP
    case RoutePrefix(_, _, _, _, _, _) => ROUTE_PREFIX
  }

  /** `Len()` of each variant: the body length written into the header,
      computed in 16-bit arithmetic. */
  function Len(o: Option): (r: uint16)
    ensures Addresses16(o) ==> r == BodySize(o) % TWO16
    decreases o, 0
  {
    match o
    case IaNa(_, _, _, os) => NestedLen(12, os)
    case NextHop(_, os) => NestedLen(16, os)
    case RoutePrefix(_, _, _, _, _, os) => NestedLen(22, os)
    case _ => LeafLen(o)
  }

  /** `Len()` of the variants without a nested list.  The IA Address length
      is the constant 24 whatever the address, and a DUID's length includes
      its own type code. */
  function LeafLen(o: Option): (r: uint16)
    requires !(o.IaNa? || o.NextHop? || o.RoutePrefix?)
    ensures Addresses16(o) ==> r == BodySize(o) % TWO16
  {
    match o
    case ClientId(d) => Duid.Len(d)
    case ServerId(d) => Duid.Len(d)
    case IaAddress(_, _, _) => 24
    case OptionRequest(codes) => (|codes| * 2) % TWO16
    case ElapsedTime(_) => 2
    case StatusCode(_, msg) => (2 + |msg|) % TWO16
    case RapidCommit => 0
    case UserClass(cd) => ClassData.Len(cd)
    case VendorClass(_, cd) => ModAdd(4, ClassData.Size(cd)); (ClassData.Len(cd) + 4) % TWO16
    case BootFileUrl(url) => |url| % TWO16
    case BootFileParameters(ps) => ClassData.Len(ps)
    case ClientSystemArchitectureType(ts) => (2 * |ts|) % TWO16
    case ClientNetworkInterfaceIdentifier(_, _, _) => 3
  }

  /** The length of a container option: its fixed fields, then the nested
      list's `Options.Len`, added in 16-bit arithmetic. */
  function NestedLen(fixed: nat, os: seq<Option>): (r: uint16)
    ensures (forall i | 0 <= i < |os| :: Addresses16(os[i])) ==> r == (fixed + ListSize(os)) % TWO16
    decreases os, 1
  {
    ModAdd(fixed, ListSize(os));
    (fixed + ListLen(os)) % TWO16
  }

  /** `Options.Len`: the sum of `Len() + 4` over the list, in 16-bit
      arithmetic; it is the list's encoded size truncated to 16 bits. */
  function ListLen(os: seq<Option>): (r: uint16)
    ensures (forall i | 0 <= i < |os| :: Addresses16(os[i])) ==> r == ListSize(os) % TWO16
    decreases os, 0
  {
    if |os| == 0 then 0
    else
      ModSum(Size(os[0]) - 4, ListSize(os[1..]));
      (Len(os[0]) + 4 + ListLen(os[1..])) % TWO16
  }

  /** Unbounded byte count of an option's encoding, header included; the
      reference against which the 16-bit `Len` is checked. */
  function Size(o: Option): nat
    decreases o, 1
  {
    4 + BodySize(o)
  }

  /** Unbounded byte count of an option's body, after the 4-byte header. */
  function BodySize(o: Option): nat
    decreases o, 0
  {
    match o
    case ClientId(d) => Duid.Size(d)
    case ServerId(d) => Duid.Size(d)
    case IaNa(_, _, _, os) => 12 + ListSize(os)
    case IaAddress(a, _, _) => |a| + 8
    case OptionRequest(codes) => 2 * |codes|
    case ElapsedTime(_) => 2
    case StatusCode(_, msg) => 2 + |msg|
    case RapidCommit => 0
    case UserClass(cd) => ClassData.Size(cd)
    case VendorClass(_, cd) => 4 + ClassData.Size(cd)
    case BootFileUrl(url) => |url|
    case BootFileParameters(ps) => ClassData.Size(ps)
    case ClientSystemArchitectureType(ts) => 2 * |ts|
    case ClientNetworkInterfaceIdentifier(_, _, _) => 3
    case NextHop(a, os) => |a| + ListSize(os)
    case RoutePrefix(_, _, _, _, p, os) => 6 + |p| + ListSize(os)
  }

  function ListSize(os: seq<Option>): nat
    decreases os
  {
    if |os| == 0 then 0 else Size(os[0]) + ListSize(os[1..])
  }

  /** The byte the Route Prefix encoder writes at offset 9: it starts at zero
      and is XORed with 24 (bits 4 and 3) for Low and with 8 (bit 3) for High. */
  function PreferenceByte(p: uint8): uint8
  {
    if p == PREFERENCE_LOW then 24 else if p == PREFERENCE_HIGH then 8 else 0
  }

  /** The preference the decoder reads from that byte: both bits 4 and 3 set
      mean Low, bit 3 alone means High, anything else leaves Medium. */
  function PreferenceOf(b: uint8): uint8
  {
    if (b / 16) % 2 == 1 && (b / 8) % 2 == 1 then PREFERENCE_LOW
    else if (b / 8) % 2 == 1 then PREFERENCE_HIGH
    else PREFERENCE_MEDIUM
  }

  /** The elapsed-time wire value: `uint16(d / time.Millisecond / 10)`, with
      Go's truncating division and 16-bit truncation. */
  function ElapsedWire(d: int64): uint16
  {
    TruncDiv(TruncDiv(d, 1_000_000), 10) % TWO16
  }

  /** 16-bit big-endian words, one per element (requested codes and
      architecture types). */
  function Words(ws: seq<uint16>): (r: Bytes)
    ensures |r| == 2 * |ws|
  {
    if |ws| == 0 then [] else Be16(ws[0]) + Words(ws[1..])
  }

  /** The body an option's `Marshal` writes after its 4-byte header: the
      fixed fields and then the nested list for IA_NA, Next Hop and Route
      Prefix. */
  function Body(o: Option): (r: Bytes)
    ensures |r| == BodySize(o)
    decreases o, 0
  {
    match o
    case IaNa(_, _, _, os) => FixedFields(o) + ListMarshal(os)
    case NextHop(_, os) => FixedFields(o) + ListMarshal(os)
    case RoutePrefix(_, _, _, _, _, os) => FixedFields(o) + ListMarshal(os)
    case _ => LeafBody(o)
  }

  /** The body of an option without a nested list.  The 32-bit duration
      fields are written as `uint32(d)`. */
  function LeafBody(o: Option): (r: Bytes)
    requires !(o.IaNa? || o.NextHop? || o.RoutePrefix?)
    ensures |r| == BodySize(o)
  {
    match o
    case ClientId(d) => Duid.Marshal(d)
    case ServerId(d) => Duid.Marshal(d)
    case IaAddress(a, pl, vl) => a + Be32(pl % TWO32) + Be32(vl % TWO32)
    case OptionRequest(codes) => Words(codes)
    case ElapsedTime(d) => Be16(ElapsedWire(d))
    case StatusCode(c, msg) => Be16(c) + msg
    case RapidCommit => []
    case UserClass(cd) => ClassData.Encode(cd)
    case VendorClass(en, cd) => Be32(en) + ClassData.Encode(cd)
    case BootFileUrl(url) => url
    case BootFileParameters(ps) => ClassData.Encode(ps)
    case ClientSystemArchitectureType(ts) => Words(ts)
    case ClientNetworkInterfaceIdentifier(it, major, minor) => [it, major, minor]
  }

  /** `Marshal()` of an option: 16-bit type code, 16-bit `Len()`, body. */
  function Marshal(o: Option): (r: Bytes)
    ensures |r| == Size(o)
    decreases o, 1
  {
    Be16(Code(o)) + Be16(Len(o)) + Body(o)
  }

  /** `Options.Marshal`: the options' encodings concatenated in list order. */
  function ListMarshal(os: seq<Option>): (r: Bytes)
    ensures |r| == ListSize(os)
    decreases os
  {
    if |os| == 0 then [] else Marshal(os[0]) + ListMarshal(os[1..])
  }

  /** The most codes an Option Request can carry before its `Marshal` aborts. */
  const MAX_REQUESTED: nat := 32765

  /** `OptionOptionRequest.Marshal`: the buffer is `make([]byte, 4+o.Len())`,
      sized in 16-bit arithmetic, and each code is written into its own
      2-byte slot of it; a slot past the end of the buffer aborts. */
  function OptionRequestMarshal(codes: seq<uint8>): (r: Result<Bytes>)
    ensures r.Ok? <==> |codes| <= MAX_REQUESTED
    ensures !r.Ok? ==> r == Panic
    ensures r.Ok? ==> r.value == Marshal(OptionRequest(codes))
  {
    var size := (4 + Len(OptionRequest(codes))) % TWO16;
    if 4 + 2 * |codes| > size then Panic
    else Ok(Be16(OPTION_REQUEST) + Be16(Len(OptionRequest(codes))) + Words(codes))
  }

  /** No Option Request in the option tree carries more than `MAX_REQUESTED`
      codes. */
  predicate RequestsFit(o: Option)
  {
    match o
    case OptionRequest(codes) => |codes| <= MAX_REQUESTED
    case IaNa(_, _, _, os) => forall i | 0 <= i < |os| :: RequestsFit(os[i])
    case NextHop(_, os) => forall i | 0 <= i < |os| :: RequestsFit(os[i])
    case RoutePrefix(_, _, _, _, _, os) => forall i | 0 <= i < |os| :: RequestsFit(os[i])
    case _ => true
  }

  /** `Marshal()` with its abort: the Option Request encoder as above, and
      the IA_NA, Next Hop and Route Prefix encoders, which write their fixed
      fields and then append `options.Marshal()`, aborting with it.  Every
      other encoder writes `Marshal(o)`. */
  function Encode(o: Option): (r: Result<Bytes>)
    ensures r.Ok? || r.Panic?
    ensures r.Ok? ==> |r.value| == Size(o)
    decreases o, 1
  {
    match o
    case OptionRequest(codes) => OptionRequestMarshal(codes)
    case IaNa(_, _, _, os) =>
      var nested :- ListEncode(os);
      Ok(Be16(IA_NA) + Be16(Len(o)) + (FixedFields(o) + nested))
    case NextHop(_, os) =>
      var nested :- ListEncode(os);
      Ok(Be16(NEXT_HOP) + Be16(Len(o)) + (FixedFields(o) + nested))
    case RoutePrefix(_, _, _, _, _, os) =>
      var nested :- ListEncode(os);
      Ok(Be16(ROUTE_PREFIX) + Be16(Len(o)) + (FixedFields(o) + nested))
    case _ => Ok(Marshal(o))
  }

  /** The bytes the IA_NA, Next Hop and Route Prefix encoders write between
      the header and the nested list.  The 32-bit durations are written as
      `uint32(d)`; Route Prefix's `metric` is never written. */
  function FixedFields(o: Option): (r: Bytes)
    requires o.IaNa? || o.NextHop? || o.RoutePrefix?
    ensures |r| + ListSize(o.options) == BodySize(o)
  {
    match o
    case IaNa(iaid, t1, t2, _) => Be32(iaid) + Be32(t1 % TWO32) + Be32(t2 % TWO32)
    case NextHop(a, _) => a
    case RoutePrefix(lt, plen, pref, _, p, _) => Be32(lt) + [plen, PreferenceByte(pref)] + p
  }

  /** `Options.Marshal` with its abort: the encodings in list order, aborting
      at the first option whose encoder aborts. */
  function ListEncode(os: seq<Option>): (r: Result<Bytes>)
    ensures r.Ok? || r.Panic?
    ensures r.Ok? ==> |r.value| == ListSize(os)
    decreases os, 0
  {
    if |os| == 0 then Ok([])
    else
      var head :- Encode(os[0]);
      var tail :- ListEncode(os[1..]);
      Ok(head + tail)
  }

  /** Every address in the option tree is 16 bytes long, as the encoders and
      the constant IA Address length assume. */
  predicate Addresses16(o: Option)
  {
    match o
    case IaAddress(a, _, _) => |a| == 16
    case IaNa(_, _, _, os) => forall i | 0 <= i < |os| :: Addresses16(os[i])
    case NextHop(a, os) => |a| == 16 && forall i | 0 <= i < |os| :: Addresses16(os[i])
    case RoutePrefix(_, _, _, _, p, os) => |p| == 16 && forall i | 0 <= i < |os| :: Addresses16(os[i])
    case _ => true
  }

  /** Options that encode to a header whose `4+Len` does not wrap and that
      `DecodeOptions` gives back unchanged:
      - the encoding, header included, is at most 65535 bytes, so the body
        length is at most 65531;
      - addresses are 16 bytes (`Addresses16`);
      - the 32-bit duration fields hold values in [0, 2^32), which `uint32(d)`
        keeps, and the elapsed time is a whole number of hundredths of a
        second below 65536 of them;
      - the route preference is Medium, High or Low, and the metric, which is
        never written, is 0;
      - a DUID-LLT time is in [0, 2^32);
      - nested options are valid in turn. */
  predicate Valid(o: Option)
  {
    && Size(o) <= 65535
    && match o
       case ClientId(d) => Duid.Valid(d)
       case ServerId(d) => Duid.Valid(d)
       case IaNa(_, t1, t2, os) =>
         0 <= t1 < TWO32 && 0 <= t2 < TWO32 && forall i | 0 <= i < |os| :: Valid(os[i])
       case IaAddress(a, pl, vl) => |a| == 16 && 0 <= pl < TWO32 && 0 <= vl < TWO32
       case ElapsedTime(d) => 0 <= d < TWO16 * CENTISECOND && d % CENTISECOND == 0
       case NextHop(a, os) => |a| == 16 && forall i | 0 <= i < |os| :: Valid(os[i])
       case RoutePrefix(_, _, pref, metric, p, os) =>
         && pref in {PREFERENCE_MEDIUM, PREFERENCE_HIGH, PREFERENCE_LOW}
         && metric == 0
         && |p| == 16
         && forall i | 0 <= i < |os| :: Valid(os[i])
       case _ => true
  }

  predicate AllValid(os: seq<Option>)
  {
    forall i | 0 <= i < |os| :: Valid(os[i])
  }
}
