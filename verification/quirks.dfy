/** Inputs on which the Go arithmetic, modelled as written, does something
    other than report an error: the 16-bit sums `4+optionLen` and `2+pl`
    wrap, a few reads are not guarded by the declared length, and type codes
    lose their high byte. */
module Quirks {
  import opened Wire
  import Duid
  import ClassData
  import opened Options
  import opened OptionDecode
  import Messages

  /** An option of any unhandled type declaring length 0xFFFC: `4+optionLen`
      wraps to 0, nothing is sliced, and the cursor stays put forever, in an
      option list and in a message alike. */
  lemma UnknownTypeHangs(data: Bytes, header: Bytes)
    requires |data| >= 4 && !Handled(data[1]) && DeclaredLen(data) == 0xFFFC
    requires |header| == 4
    ensures DecodeOptions(data) == Hang
    ensures Messages.Decode(header + data) == Hang
  {
    UnknownTypeListHangs(data);
    assert (header + data)[4..] == data;
  }

  lemma UnknownTypeListHangs(data: Bytes)
    requires |data| >= 4 && !Handled(data[1]) && DeclaredLen(data) == 0xFFFC
    ensures DecodeOptions(data) == Hang
  {
    assert End(data) == 0 && Framed(data);
    assert DecodeOne(data) == Ok([]);
  }

  /** A Client or Server Identifier declaring length 0xFFFC to 0xFFFF: the
      guard compares with the wrapped end 0 to 3, which passes, and
      `data[4:4+optionLen]` aborts. */
  lemma WrappedEndPanics(data: Bytes)
    requires |data| >= 4 && data[1] in {CLIENT_ID, SERVER_ID} && DeclaredLen(data) > 65531
    ensures DecodeOptions(data) == Panic
  {
    assert DecodeIdentifier(data) == Panic;
  }

  /** A class-data record declaring 0xFFFF bytes: `2+pl` wraps to 1 and the
      slice `d[2:1]` aborts. */
  lemma ClassDataWrapPanics()
    ensures ClassData.Decode([255, 255]) == Panic
    ensures DecodeOptions([0, 15, 0, 2, 255, 255]) == Panic
  {
    var d: Bytes := [255, 255];
    assert Uint16At(d, 0) == 0xFFFF && !ClassData.Stops(d);
    var data: Bytes := [0, 15, 0, 2, 255, 255];
    assert data[4..6] == d;
  }

  /** Vendor Class reads the enterprise number whatever the declared length:
      with nothing after the header the read aborts ... */
  lemma VendorClassShortPanics()
    ensures DecodeOptions([0, 16, 0, 0]) == Panic
  {
  }

  /** ... and otherwise it takes the next option's header as the number. */
  lemma VendorClassReadsNextHeader()
    ensures DecodeOptions([0, 16, 0, 0, 0, 7, 0, 0]) == Ok([VendorClass(458752, [])])
  {
    var data: Bytes := [0, 16, 0, 0, 0, 7, 0, 0];
    assert Uint32At(data, 4) == 458752;
    assert DecodeOne(data) == Ok([VendorClass(458752, [])]);
    assert data[4..] == [0, 7, 0, 0];
    assert DecodeOptions(data[4..]) == Ok([]);
    assert [VendorClass(458752, [])] + [] == [VendorClass(458752, [])];
  }

  /** The same Vendor Class as the whole nested list of an IA_NA aborts in
      the model, although the enclosing buffer has bytes after it. */
  lemma NestedVendorClassPanics()
    ensures DecodeOptions([0, 3, 0, 16, 0, 0, 0, 1, 0, 0, 0, 0, 0, 0, 0, 0,
                           0, 16, 0, 0, 0, 14, 0, 0]) == Panic
  {
    var data: Bytes := [0, 3, 0, 16, 0, 0, 0, 1, 0, 0, 0, 0, 0, 0, 0, 0,
                        0, 16, 0, 0, 0, 14, 0, 0];
    VendorClassShortPanics();
    assert DeclaredLen(data) == 16 && End(data) == 20;
    assert data[16..20] == [0, 16, 0, 0];
    assert DecodeIaNa(data) == Panic;
  }

  /** An odd-length architecture list reads one byte past its body: at the
      end of the input that aborts ... */
  lemma OddArchTypesPanic()
    ensures DecodeOptions([0, 61, 0, 1, 5]) == Panic
  {
    var data: Bytes := [0, 61, 0, 1, 5];
    assert ArchTypes(data, 1, 0) == Panic;
  }

  /** ... and before another option it borrows that option's first byte. */
  lemma OddArchTypesBorrow()
    ensures DecodeOptions([0, 61, 0, 1, 5, 0, 14, 0, 0])
         == Ok([ClientSystemArchitectureType([0x500]), RapidCommit])
  {
    var data: Bytes := [0, 61, 0, 1, 5, 0, 14, 0, 0];
    assert Uint16At(data, 4) == 0x500;
    assert ArchTypes(data, 1, 2) == Ok([]);
    assert ArchTypes(data, 1, 0) == Ok([0x500] + []);
    assert [0x500] + [] == [0x500];
    assert DecodeOne(data) == Ok([ClientSystemArchitectureType([0x500])]);
    assert data[5..] == [0, 14, 0, 0];
    assert DecodeOptions(data[5..]) == Ok([RapidCommit]);
    assert [ClientSystemArchitectureType([0x500])] + [RapidCommit]
        == [ClientSystemArchitectureType([0x500]), RapidCommit];
  }

  /** Option type 0x0103 is decoded as IA_NA (3), and re-encoding writes 3:
      the byte round trip fails. */
  lemma OptionTypeTruncated()
    ensures var data: Bytes := [1, 3, 0, 12, 0, 0, 0, 1, 0, 0, 0, 2, 0, 0, 0, 3];
      && DecodeOptions(data) == Ok([IaNa(1, 2, 3, [])])
      && ListMarshal([IaNa(1, 2, 3, [])]) != data
  {
    var data: Bytes := [1, 3, 0, 12, 0, 0, 0, 1, 0, 0, 0, 2, 0, 0, 0, 3];
    var o := IaNa(1, 2, 3, []);
    assert Uint32At(data, 4) == 1 && Uint32At(data, 8) == 2 && Uint32At(data, 12) == 3;
    assert End(data) == 16;
    assert DecodeIaNa(data) == Ok(o);
    assert DecodeOne(data) == Ok([o]);
    assert DecodeOptions(data) == Ok([o]);
    assert ListMarshal([o]) == Marshal(o) + ListMarshal([]);
    assert Marshal(o) == Be16(IA_NA) + Be16(Len(o)) + Body(o);
    assert ListMarshal([o])[0] == 0 != data[0];
  }

  /** DUID type 0x0103 is decoded as DUID-LL (3) and written back as 3. */
  lemma DuidTypeTruncated()
    ensures Duid.Decode([1, 3, 0, 1]) == Ok(Duid.Ll(1, []))
    ensures Duid.Marshal(Duid.Ll(1, [])) == [0, 3, 0, 1]
  {
    var data: Bytes := [1, 3, 0, 1];
    assert data[4..] == [];
  }

  /** IA Address bytes after the fixed 24 are ignored. */
  lemma IaAddressTailIgnored(data: Bytes)
    requires Framed(data) && data[1] == IA_ADDRESS
    requires 24 <= DeclaredLen(data) <= 65531
    ensures DecodeOne(data) == Ok([IaAddress(data[4..20], Uint32At(data, 20), Uint32At(data, 24))])
  {
  }
}
