# DHCPv6 codec model

A Dafny model of the wire codec of a Go DHCPv6 library (RFC 3315 with the
RFC 5970 boot options and the route options of
draft-ietf-mif-dhcpv6-route-option). It covers three layers:

- **DHCP Unique Identifiers** (`duid.dfy`, module `Duid`): DUID-LLT, DUID-LL
  and DUID-UUID, with `DecodeDUID` and each variant's `Len`/`Marshal`.
- **Options** (`option.dfy`, `decode.dfy`, `classdata.dfy`, `container.dfy`).
  - `Options` holds the recursive option datatype (16 variants) and the
    per-variant `Len`/`Marshal`, including `Options.Len`/`Options.Marshal`.
  - `OptionDecode` holds `DecodeOptions`: the type-length-value loop, the
    per-type body decoders, and recursion into the nested lists of IA_NA,
    Next Hop and Route Prefix.
  - `ClassData` holds the length-prefixed string lists of User Class, Vendor
    Class and Boot File Parameters.
  - `Container` holds the `optionContainer` lookup, append and replace.
- **Messages** (`message.dfy`, module `Messages`): message type, 24-bit
  transaction id and options, as in section 6 of RFC 3315.

The model follows the Go arithmetic as written. Decoding returns a `Result`
with four outcomes:

- `Ok`: a value.
- `Fail`: an error kind: option too short, option too long, DUID too short,
  unhandled DUID type, or message too short.
- `Panic`: a Go slice or index out of range.
- `Hang`: the decode loop never advances.

Concretely, the arithmetic is modelled as follows:

- Type codes are read as 16 bits and cut to the 8-bit `OptionType` and
  `DUIDType`, so only byte 1 selects the variant.
- The option end `4+optionLen` and the class-data end `2+pl` are 16-bit sums,
  so they wrap.
- Durations are `int64` counts, written with `uint32(...)` or `uint16(...)`
  truncation.
- Go's truncating division is written out (`Wire.TruncDiv`).

Modules `OptionLaws` and `RoundTrip` prove laws about the encoder and
decoder: length bookkeeping, the option round trip, and the length gates.
`Fixtures` replays the test fixtures, and `Quirks` shows the concrete inputs
where the arithmetic wraps or a read goes unchecked.

Decoding and encoding are inverse only on part of the value space, and the
model states which part:

- `Decode(Marshal(v)) == v` holds for the values `Options.Valid` and
  `Duid.Valid` name:
  - 16-byte addresses;
  - 32-bit durations;
  - whole hundredths of a second for the elapsed time;
  - a preference of Medium, High or Low and a metric of 0;
  - encodings of at most 65535 bytes;
  - a DUID-LLT time in [0, 2^32).

  A message's transaction id comes back cut to 24 bits.
- The DUID value round trip holds for every DUID-LLT time in [0, 2^32), not
  only from the epoch offset 946771200 upwards.
- The DUID byte round trip `Marshal(Decode(b)) == b` holds exactly when
  `b[0] == 0`, because the high byte of the type code is dropped
  (`Duid.ByteRoundTripIff`).
- The epoch offset 946771200 is 2000-01-02, one day after the epoch of
  section 9.2 of RFC 3315. It is kept as written.
- The encoders abort in one case: an Option Request with 32766 or more codes
  allocates `4+Len()` bytes in 16-bit arithmetic (option.go:429), which wraps,
  and the writes run past the buffer. `Options.Encode`, `Options.ListEncode`
  and `Messages.Encode` model that abort. `Options.Marshal`,
  `Options.ListMarshal` and `Messages.Marshal` are the bytes written when the
  encoder does not abort, which is whenever the encoding fits 65535 bytes.

## Model

| member | source | states |
|---|---|---|
| Duid.Len | duid.go:74-77 | The 16-bit length is the DUID's byte count, its own type code included, truncated to 16 bits |
| Duid.Marshal | duid.go:75-179 | The encoding is exactly `Size` bytes and starts with the 16-bit type code |
| Duid.Decode | duid.go:183-241 | Never aborts. Fails TooShort exactly on fewer than 2 bytes, LLT under 8, LL under 4, or UUID other than 18. Fails UnhandledDuidType exactly for any other low type byte, the enterprise number included. On success the variant matches `data[1]` |
| Duid.UnixTimeOfWireTime | duid.go:207 | Reading back the wire time of a Unix time in [0, 2^32) gives that Unix time |
| Duid.WireTimeOfUnixTime | duid.go:97 | Writing the Unix time decoded from any 32-bit wire time reproduces the wire time |
| Duid.DecodeMarshal | duid.go:183-225 | Every valid DUID decodes back from its encoding |
| Duid.MarshalDecode | duid.go:87-143 | Re-encoding any accepted input reproduces it with byte 0 (the dropped high type byte) set to zero |
| Duid.ByteRoundTripIff | duid.go:191 | The exact byte round trip holds for an accepted input iff its first byte is zero |
| Duid.DecodedIsValid | duid.go:202-235 | Every decoded DUID is in the domain of the value round trip |
| Duid.LltGoldenVector | duid_test.go:48-112 | The LLT test vector decodes to hardware type 1, Unix time 1446771200, MAC aa:bb:cc:dd:ee:ff; re-encodes to the same 14 bytes; `Len` is 14 |
| ClassData.Encode | option.go:636-648 | The encoding is exactly `Size` bytes, 2 per string plus its contents; that the strings come back in order is `ClassData.DecodeEncode` |
| ClassData.Len | option.go:650-657 | `classDataLen` is the length of `encodeClassData`'s output truncated to 16 bits |
| ClassData.Decode | option.go:614-634 | Never fails with an error, only possibly aborts. The records it returns re-encode to a prefix of the input. When the input fits 16 bits, the bytes after that prefix do not start with a complete record |
| ClassData.DecodeEncode | option.go:636-657 | Decoding the encoding of any list whose encoding fits in 16 bits gives the list back |
| ClassData.DecodeOkIff | option.go:622-629 | Decoding aborts exactly when its walk meets a length prefix of 0xFFFE or 0xFFFF, which wraps `2+pl` |
| ClassData.TruncatedRecordDropped | option.go:823-830 | A trailing record that overruns the input is dropped without error |
| Container.HasOption | option.go:26-33 | Absent iff no option has the type; otherwise the option found has the type and no earlier one does |
| Container.AddOption | option.go:38-40 | The list grows by one: the old list unchanged, then the new option |
| Container.SetOption | option.go:44-53 | If the type occurs, the first such entry is replaced and nothing else changes; otherwise the option is appended |
| Container.HasOptionAfterSet | option.go:44-53 | After `SetOption`, a lookup of the new option's type finds the new option |
| Container.HasOptionOtherAfterSet | option.go:44-53 | `SetOption` leaves the lookup of every other type unchanged |
| Container.SetOptionIdempotent | option.go:44-53 | Setting the same option twice equals setting it once |
| Container.HasOptionAfterAdd | option.go:38-40 | After `AddOption`, a lookup finds what it found before, or the new option when the type was absent |
| OptionDecode.End | option.go:1141 | The 16-bit `4+L` equals `4+L` for `L <= 65531` and wraps below 4 otherwise |
| OptionDecode.DecodeOptions | option.go:1126-1312 | TooShort on fewer than 4 bytes or a declared length past the input; a successful list is no longer than the input |
| OptionDecode.DecodeOne | option.go:1145-1301 | At most one option results. An unhandled type gives none and no error. A decoded option reports the type code read from byte 1 |
| OptionDecode.DecodeIdentifier | option.go:1147-1160 | For a non-wrapping length it succeeds exactly when the body `[4, 4+L)` is a DUID, gives that DUID under the header's type, and otherwise returns the DUID decoder's error unchanged; a wrapping length aborts |
| OptionDecode.DecodeIaNa | option.go:1161-1175 | TooShort below 12; a wrapping length aborts. IAID, T1 and T2 are the 32-bit words at offsets 4, 8 and 12. A 12-byte body has no nested options; a longer one succeeds exactly when `DecodeOptions` of `[16, 4+L)` does, holding that list, and otherwise fails the same way |
| OptionDecode.DecodeIaAddress | option.go:1176-1184 | TooShort below 24. Succeeds for every non-wrapping length of at least 24, with a 16-byte address |
| OptionDecode.DecodeOptionRequest | option.go:1185-1189 | Succeeds exactly for a non-wrapping length, with `L/2` codes, code `k` being the low byte of the body's `k`-th word |
| OptionDecode.DecodeElapsedTime | option.go:1190-1201 | TooShort below 2, TooLong above 2, success exactly at 2, giving the 16-bit word at offset 4 times 10 ms |
| OptionDecode.DecodeStatusCode | option.go:1202-1209 | TooShort below 2; succeeds exactly for the other non-wrapping lengths, with the 16-bit code at offset 4 and the message `[6, 4+L)` |
| OptionDecode.DecodeRapidCommit | option.go:1210-1215 | Succeeds exactly on length 0; any other length is TooLong |
| OptionDecode.DecodeUserClass | option.go:1216-1220 | Never fails with an error. An empty body gives no class data; otherwise it succeeds exactly when `ClassData.Decode` of `[4, 4+L)` does and holds its result |
| OptionDecode.DecodeVendorClass | option.go:1221-1227 | Never fails with an error. Aborts when the input is under 8 bytes, whatever the length. The enterprise number is the word at offset 4; a body of at most 4 bytes has no class data, a longer one the result of `ClassData.Decode` on `[8, 4+L)` |
| OptionDecode.DecodeBootFileUrl | option.go:1228-1232 | Succeeds exactly for a non-wrapping length, with the body bytes verbatim as the URL |
| OptionDecode.DecodeBootFileParameters | option.go:1233-1237 | Never fails with an error. An empty body gives no parameters; otherwise it succeeds exactly when `ClassData.Decode` of `[4, 4+L)` does and holds its result |
| OptionDecode.DecodeArchTypes | option.go:1238-1246 | An empty body gives no types. A result holds `ceil(L/2)` types, type `k` being the 16-bit word at offset `4+2k`, which lies within the input |
| OptionDecode.ArchTypes | option.go:1242-1244 | The loop yields `ceil((L-i)/2)` types from offset `i`, each the word at its 16-bit offset, so an odd length takes one byte more than the body holds. The counter cannot wrap back to 0: at offset 65530 the slice aborts first |
| OptionDecode.DecodeInterfaceId | option.go:1247-1255 | Succeeds exactly on length 3, with the three body bytes as type, major and minor revision; any other length is TooShort |
| OptionDecode.DecodeNextHop | option.go:1256-1269 | TooShort below 16; a wrapping length aborts. The address is bytes 4-19. A 16-byte body has no nested options; a longer one succeeds exactly when `DecodeOptions` of `[20, 4+L)` does, holding that list, and otherwise fails the same way |
| OptionDecode.DecodeRoutePrefix | option.go:1271-1292 | TooShort below 22; a wrapping length aborts. The lifetime is the word at 4, the prefix length byte 8, the preference `PreferenceOf(byte 9)`, the prefix bytes 10-25, the metric 0. A 22-byte body has no nested options; a longer one succeeds exactly when `DecodeOptions` of `[26, 4+L)` does, holding that list |
| OptionDecode.RequestedCodes | option.go:455-468 | One code per 2 bytes, each the low byte of its word; an odd last byte is ignored |
| Options.Len | option.go:317-323 | Every option's 16-bit `Len` is its body's byte count truncated to 16 bits, nested lists included, whenever its addresses are 16 bytes |
| Options.ListLen | option.go:189-200 | `Options.Len`, the 16-bit sum of `Len+4`, is the list's encoded size truncated to 16 bits |
| Options.Body | option.go:331-353 | The body written after the header is exactly the option's body size |
| Options.Marshal | option.go:223-239 | The encoding is exactly `Size` bytes, header included |
| Options.ListMarshal | option.go:171-185 | The list's encoding is exactly the sum of its options' sizes |
| Options.OptionRequestMarshal | option.go:427-439 | Aborts exactly when there are more than 32765 codes, where `4+Len()` wraps; otherwise writes `Marshal` |
| Options.Encode | option.go:331-353 | Only ever succeeds or aborts, never fails with an error, and on success writes exactly `Size(o)` bytes; when it aborts is stated by `OptionLaws.EncodeMarshal` |
| Options.ListEncode | option.go:171-185 | Only ever succeeds or aborts, never fails with an error, and on success writes the sum of the options' sizes |
| OptionLaws.EncodeMarshal | option.go:427-439 | An option's encoder aborts exactly when an Option Request anywhere in it has more than 32765 codes, and otherwise writes `Marshal` |
| OptionLaws.ListEncodeMarshal | option.go:171-185 | `Options.Marshal` aborts exactly when one of the options does, and otherwise writes the concatenation |
| OptionLaws.SmallRequestsFit | option.go:415-439 | An option whose encoding fits 65535 bytes has no Option Request that makes the encoder abort |
| OptionLaws.EncodesAsMarshal | option.go:223-239 | Whatever the encoder writes is `Marshal`, and it writes it whenever the encoding fits 65535 bytes |
| OptionLaws.ValidEncodes | option.go:171-185 | A list of valid options encodes without aborting |
| OptionLaws.MarshalShape | option.go:223-239 | An encoding is the 16-bit type, then `Len`, then the body; `Len` is the byte count after the header when the encoding fits, and then the encoder does not abort and writes exactly these bytes |
| OptionLaws.RequestedCodesWords | option.go:427-468 | The requested codes read back from their encoding |
| OptionLaws.PreferenceRoundTrip | option.go:1103-1108 | Medium, High and Low read back as themselves from the byte the encoder writes |
| OptionLaws.PreferenceOtherIsMedium | option.go:1103-1108 | Any other preference is written as 0 and reads back as Medium |
| OptionLaws.PreferenceBits | option.go:1281-1285 | The decoded preference depends on bits 4 and 3 only: Low iff both set, High iff bit 3 alone, Medium iff bit 3 clear |
| OptionLaws.ElapsedRoundTrip | option.go:491-502 | A whole number of hundredths below 65536 of them reads back as written |
| OptionLaws.ElapsedWireTruncates | option.go:499 | The written value is the duration rounded down to the hundredth |
| OptionLaws.ElapsedReencode | option.go:1197-1200 | Re-encoding a decoded wire value reproduces it |
| OptionLaws.SkipUnknown | option.go:1294-1308 | An unhandled type adds nothing, and decoding resumes `4+L` bytes later |
| OptionLaws.LengthGates | option.go:1161-1274 | The per-type minimum and exact lengths fail the option and the whole list as TooShort or TooLong |
| OptionLaws.IaNaNestedRemainderTooShort | option.go:1169-1175 | An IA_NA whose nested part is 1 to 3 bytes fails TooShort |
| OptionLaws.NestedFailurePropagates | option.go:1169-1292 | A failure decoding the nested list of IA_NA, Next Hop or Route Prefix fails the enclosing option with the same error |
| OptionLaws.MetricNotWritten | option.go:1090-1120 | The Route Prefix encoding does not depend on the metric |
| RoundTrip.Header | option.go:171-185 | An encoded option that fits has its type at byte 1 and a declared length equal to its body size; its body sits at `4..Size`, whatever follows |
| RoundTrip.IaNaFields | option.go:331-353 | IAID, T1 and T2 are the words at offsets 4, 8 and 12, then the nested list |
| RoundTrip.IaAddressFields | option.go:383-400 | The address is bytes 4-19, the lifetimes the words at 20 and 24 |
| RoundTrip.VendorClassFields | option.go:715-728 | The enterprise number is the word at 4, then the class data |
| RoundTrip.NextHopFields | option.go:1013-1030 | The address is bytes 4-19, then the nested list |
| RoundTrip.RoutePrefixFields | option.go:1090-1120 | Lifetime, prefix length, preference byte and prefix sit at 4, 8, 9 and 10-25, then the nested list |
| RoundTrip.ArchTypesInBounds | option.go:1242-1244 | The architecture loop does not abort on an even length inside the input |
| RoundTrip.ArchTypesWords | option.go:906-920 | The architecture loop reads back every encoded word |
| RoundTrip.DuidCase | option.go:1147-1160 | A valid Client or Server Identifier decodes back from its encoding |
| RoundTrip.IaNaCase | option.go:1161-1175 | A valid IA_NA decodes back, given that its nested list does |
| RoundTrip.IaAddressCase | option.go:1176-1184 | A valid IA Address decodes back |
| RoundTrip.OptionRequestCase | option.go:1185-1189 | A valid Option Request decodes back |
| RoundTrip.ElapsedTimeCase | option.go:1190-1201 | A valid Elapsed Time decodes back |
| RoundTrip.StatusCodeCase | option.go:1202-1209 | A valid Status Code decodes back |
| RoundTrip.UserClassCase | option.go:1216-1220 | A valid User Class decodes back |
| RoundTrip.VendorClassCase | option.go:1221-1227 | A valid Vendor Class decodes back |
| RoundTrip.BootFileUrlCase | option.go:1228-1232 | A valid Boot File URL decodes back |
| RoundTrip.BootFileParametersCase | option.go:1233-1237 | A valid Boot File Parameters decodes back |
| RoundTrip.ArchTypeCase | option.go:1238-1246 | A valid Client System Architecture Type decodes back |
| RoundTrip.InterfaceIdCase | option.go:1247-1255 | A valid Client Network Interface Identifier decodes back |
| RoundTrip.NextHopCase | option.go:1256-1269 | A valid Next Hop decodes back, given that its nested list does |
| RoundTrip.RoutePrefixCase | option.go:1271-1292 | A valid Route Prefix decodes back, given that its nested list does |
| RoundTrip.DecodeOneMarshal | option.go:1126-1312 | Every valid option, followed by anything, is framed, ends at its size, and decodes back |
| RoundTrip.DecodeListMarshal | option.go:171-185 | `DecodeOptions` inverts `Options.Marshal` on every non-empty list of valid options, child order preserved |
| Messages.Xid | message.go:128 | The transaction id is below 2^24 and is bytes 1-3 zero-extended |
| Messages.Marshal | message.go:96-114 | Byte 0 is the type, then 3 id bytes, then exactly the options' encoding; these are the bytes written when the encoder does not abort |
| Messages.Encode | message.go:96-114 | The message encoder aborts exactly when one of its options' encoders does, and otherwise writes `Marshal` |
| Messages.MarshalXid | message.go:102-103 | The id read back from an encoded message is the id mod 2^24 |
| Messages.Decode | message.go:118-141 | MessageTooShort exactly below 4 bytes. The type is byte 0 and the id bytes 1-3. Exactly 4 bytes give no options. Otherwise it succeeds iff the options decode, and an option error becomes the message's error |
| Messages.HasOption | message.go:80-88 | Present iff some top-level option has the type, and then it is the first top-level option with that type |
| Messages.AddOption | message.go:91-93 | Type and id unchanged; the option appended |
| Messages.HasOptionAfterAdd | message.go:80-93 | After `AddOption`, a lookup finds what it found before, or the new option when the type was absent |
| Messages.DecodeMarshal | message.go:96-141 | A message with valid options encodes without aborting and decodes back from its encoding, the id cut to 24 bits |
| Messages.HeaderReproduced | message.go:118-128 | Re-encoding a decoded message reproduces its first 4 bytes |
| Messages.ByteRoundTrip | message.go:96-141 | The whole input is reproduced whenever its options re-encode to their own bytes |
| Fixtures.SolicitFixture | message_test.go:45-51 | The Solicit fixture decodes to type 1, id 123456 and one Client Identifier with a DUID-LLT |
| Fixtures.SolicitBytes | message_test.go:110-115 | The Solicit message encodes to the fixture |
| Fixtures.SolicitLookups | message_test.go:101-108 | Client Identifier present, Authentication absent |
| Fixtures.AdvertiseFixture | message_test.go:52-58 | The Advertise fixture decodes to type 2, id 234567, an IA_NA and an Option Request |
| Fixtures.AdvertiseBytes | message_test.go:110-115 | The Advertise message encodes to the fixture |
| Fixtures.AdvertiseLookups | message_test.go:101-108 | IA_NA and Option Request present, Interface-Id absent |
| Fixtures.RequestFixture | message_test.go:59-65 | The Request fixture decodes to type 3, id 345678, with the Advertise options |
| Fixtures.RequestBytes | message_test.go:110-115 | The Request message encodes to the fixture |
| Fixtures.RequestLookups | message_test.go:101-108 | IA_NA and Option Request present, Interface-Id absent |
| Fixtures.ConfirmFixture | message_test.go:66-71 | The Confirm fixture decodes to type 4, id 456789, an elapsed time of one second |
| Fixtures.ConfirmBytes | message_test.go:110-115 | The Confirm message encodes to the fixture |
| Fixtures.ConfirmLookups | message_test.go:101-108 | Elapsed Time present, Rapid Commit absent |
| Fixtures.ReplyFixture | message_test.go:72-77 | The Reply fixture decodes to type 7, id 678901, Rapid Commit present and Elapsed Time absent |
| Fixtures.ReplyBytes | message_test.go:110-115 | The Reply message encodes to the fixture |
| Fixtures.HasOptionIsShallow | message.go:80-88 | A lookup does not search nested containers: an IA Address inside an IA_NA is not found |
| Fixtures.NestedIaNaMarshal | option_test.go:354-370 | The IA_NA holding one IA Address encodes to the nested fixture |
| Fixtures.NestedIaNaFixture | option_test.go:335-353 | The nested fixture decodes to one IA_NA with exactly one nested option, an IA Address, which a lookup finds |
| Quirks.UnknownTypeHangs | option.go:1141-1308 | An option of any unhandled type declaring 0xFFFC makes `4+L` wrap to 0 and the loop never advance, alone or in a message |
| Quirks.UnknownTypeListHangs | option.go:1141-1308 | The same for an option list on its own |
| Quirks.WrappedEndPanics | option.go:1141-1149 | A Client or Server Identifier declaring any length above 65531 passes the wrapped guard and aborts on the slice |
| Quirks.ClassDataWrapPanics | option.go:622-628 | A class-data prefix of 0xFFFF wraps `2+pl` and aborts, also inside a User Class |
| Quirks.VendorClassShortPanics | option.go:1221-1224 | A Vendor Class with length 0 at the end of the input aborts reading the enterprise number, as Go does when the input has no capacity past its end |
| Quirks.VendorClassReadsNextHeader | option.go:1221-1224 | Otherwise the number is taken from the next option's header |
| Quirks.NestedVendorClassPanics | option.go:1161-1175 | A length-0 Vendor Class as the whole nested list of an IA_NA aborts in the model even with bytes after the IA_NA (see "Left out" on slice capacity) |
| Quirks.OddArchTypesPanic | option.go:1242-1243 | An odd architecture length at the end of the input aborts, as Go does when the input has no capacity past its end |
| Quirks.OddArchTypesBorrow | option.go:1242-1243 | Before another option, the odd length borrows that option's first byte |
| Quirks.OptionTypeTruncated | option.go:1137 | Type 0x0103 decodes as IA_NA and re-encodes with type 3, so the bytes differ |
| Quirks.DuidTypeTruncated | duid.go:191 | DUID type 0x0103 decodes as DUID-LL and is written back as 3 |
| Quirks.IaAddressTailIgnored | option.go:1176-1184 | IA Address bytes past the first 24 of the body are ignored |

## Left out

- `String()` methods and enum name tables: display formatting, not wire behaviour.
- The `fmt.Printf` for unhandled option types: modelled as a silent skip.
- Error message text and `fmt.Errorf` wrapping: only the error kinds are modelled (`BadOptions` records that the message layer wrapped an option error).
- `github.com/google/uuid`: a UUID is 16 opaque bytes copied in both directions.
- `time.Time`, `time.Duration`, `net.IP` and `net.HardwareAddr`: integers and byte sequences. Durations are `int64` counts; the DUID time is Unix seconds.
- The enterprise-number DUID: declared without methods in the Go code, so no value of it exists. Its type code is rejected like any unknown one.
- `OptionDNSServer`: it has no definition in option.go.
- `OptionServerID.Equal`: a byte comparison of two `Marshal` outputs, which adds nothing beyond the encoder.
- `OptionOptionRequest.HasOption`: a membership test on the requested codes (`t in requested`).
- Go slice capacity: a slice's upper bound may run past its length up to its capacity, and the model treats every such slice as an abort. At the top level the two agree only when the caller's buffer has no capacity beyond its length, as with a slice literal: `DecodeMessage` passes on `data[4:]`, which keeps the caller's capacity, so decoding `buf[:n]` of a larger read buffer reads on into the stale bytes after `n` exactly as the nested case below does. They always differ inside a nested list, whose slice `data[16:4+L]` (IA_NA; 20 for Next Hop, 26 for Route Prefix) keeps the enclosing buffer as capacity. There a Vendor Class shorter than 4 bytes, or an odd architecture-type length, at the end of the nested list reads on into the enclosing option's bytes in Go, where the model aborts. For example `[0,3,0,16, 0,0,0,1, 0,0,0,0, 0,0,0,0, 0,16,0,0, 0,14,0,0]` decodes in Go to an IA_NA holding a Vendor Class with enterprise number 0x000E0000, followed by Rapid Commit; the model gives `Panic`.
- Encoder errors: the Go `Marshal` methods return an error only from the UUID library, which cannot fail on 16 bytes, so `Options.Encode` has no error outcome. Its one abort, the Option Request allocation, is modelled.
- OptionDecode.DecodeOptions: on an error the Go function also returns the options decoded before it. The model returns only the error, which is all `DecodeMessage` and the nested decoders use.
- Options.Valid: encodings over 65535 bytes, non-16-byte addresses and out-of-range durations are outside the round trip. For encodings over 65535 bytes and out-of-range durations the 16-bit `Len` is still proved (`Options.Len`), but decoding them back is not claimed. With an address that is not 16 bytes, the IA Address `Len` stays 24 and no relation to the body size is claimed.
- The StatusCode golden vector and the per-option tests of option_test.go beyond the IA_NA fixture: the per-variant round-trip lemmas cover their shapes, but their literal bytes are not replayed.
- Tests that expect a later revision (T1/T2 in seconds, nested options in IA Address): the model follows option.go.
