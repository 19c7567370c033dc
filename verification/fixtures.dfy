/** The message fixtures of the codec's tests (message_test.go), each shown
    to be the encoding of the message the test expects and hence, by the
    round trip, to decode to it. */
module Fixtures {
  import opened Wire
  import Duid
  import opened Options
  import Container
  import opened Messages
  import OptionDecode
  import RoundTrip

  function ReplyMessage(): Message
  {
    Message(7, 678901, [RapidCommit])
  }

  lemma ReplyBytes()
    ensures Messages.Marshal(ReplyMessage()) == [7, 10, 91, 245, 0, 14, 0, 0]
  {
    var m := ReplyMessage();
    assert Options.Marshal(RapidCommit) == [0, 14, 0, 0];
    assert ListMarshal(m.options) == [0, 14, 0, 0] + [];
    assert Be32(678901)[1..] == [10, 91, 245];
  }

  /** The Reply fixture: a Rapid Commit option and nothing else. */
  lemma ReplyFixture()
    ensures Messages.Decode([7, 10, 91, 245, 0, 14, 0, 0]) == Ok(ReplyMessage())
    ensures HasOption(ReplyMessage(), RAPID_COMMIT).Present?
    ensures HasOption(ReplyMessage(), ELAPSED_TIME).Absent?
  {
    ReplyBytes();
    assert Valid(ReplyMessage().options[0]);
    ModSmall(678901, TWO24);
    DecodeMarshal(ReplyMessage());
  }

  function ConfirmMessage(): Message
  {
    Message(4, 456789, [ElapsedTime(100_000_000)])
  }

  lemma ConfirmBytes()
    ensures Messages.Marshal(ConfirmMessage()) == [4, 6, 248, 85, 0, 8, 0, 2, 0, 10]
  {
    var m := ConfirmMessage();
    assert ElapsedWire(100_000_000) == 10;
    assert Options.Marshal(ElapsedTime(100_000_000)) == [0, 8, 0, 2, 0, 10];
    assert ListMarshal(m.options) == [0, 8, 0, 2, 0, 10] + [];
    assert Be32(456789)[1..] == [6, 248, 85];
  }

  /** The Confirm fixture: an elapsed time of one second, written as 100
      hundredths. */
  lemma ConfirmFixture()
    ensures Messages.Decode([4, 6, 248, 85, 0, 8, 0, 2, 0, 10]) == Ok(ConfirmMessage())
  {
    ConfirmBytes();
    assert Valid(ConfirmMessage().options[0]);
    ModSmall(456789, TWO24);
    DecodeMarshal(ConfirmMessage());
  }

  /** The options the Confirm test looks up. */
  lemma ConfirmLookups()
    ensures HasOption(ConfirmMessage(), ELAPSED_TIME).Present?
    ensures HasOption(ConfirmMessage(), RAPID_COMMIT).Absent?
  {
  }

  function SolicitMessage(): Message
  {
    Message(1, 123456, [ClientId(Duid.Llt(1, 1492714923, [82, 84, 0, 250, 153, 31]))])
  }

  lemma SolicitDuidBytes()
    ensures Duid.Marshal(SolicitMessage().options[0].duid)
         == [0, 1, 0, 1, 32, 138, 112, 171, 82, 84, 0, 250, 153, 31]
  {
    assert Duid.WireTime(1492714923) == 545943723;
    assert Be32(545943723) == [32, 138, 112, 171];
    assert Be16(1) == [0, 1];
  }

  lemma SolicitOptionBytes()
    ensures ListMarshal(SolicitMessage().options)
         == [0, 1, 0, 14, 0, 1, 0, 1, 32, 138, 112, 171, 82, 84, 0, 250, 153, 31]
  {
    var m := SolicitMessage();
    var o := m.options[0];
    var db: Bytes := [0, 1, 0, 1, 32, 138, 112, 171, 82, 84, 0, 250, 153, 31];
    SolicitDuidBytes();
    ModSmall(14, TWO16);
    assert Len(o) == 14;
    assert Options.Marshal(o) == Be16(CLIENT_ID) + Be16(14) + db;
    assert Be16(CLIENT_ID) == [0, 1] && Be16(14) == [0, 14];
    assert ListMarshal(m.options) == Options.Marshal(o) + [];
  }

  lemma SolicitBytes()
    ensures Messages.Marshal(SolicitMessage())
         == [1, 1, 226, 64, 0, 1, 0, 14, 0, 1, 0, 1, 32, 138, 112, 171, 82, 84, 0, 250, 153, 31]
  {
    var m := SolicitMessage();
    var xb: Bytes := [1, 226, 64];
    var ob: Bytes := [0, 1, 0, 14, 0, 1, 0, 1, 32, 138, 112, 171, 82, 84, 0, 250, 153, 31];
    assert ListMarshal(m.options) == ob by {
      SolicitOptionBytes();
    }
    assert Be32(m.xid)[1..] == xb;
    MarshalBytes(m, xb, ob);
    SolicitLiteral();
  }

  lemma SolicitLiteral()
    ensures var a: Bytes := [1] + [1, 226, 64] + [0, 1, 0, 14, 0, 1, 0, 1, 32, 138, 112, 171, 82, 84, 0, 250, 153, 31];
      a == [1, 1, 226, 64, 0, 1, 0, 14, 0, 1, 0, 1, 32, 138, 112, 171, 82, 84, 0, 250, 153, 31]
  {
  }

  /** The Solicit fixture: a Client Identifier holding a DUID-LLT whose wire
      time 545943723 reads as Unix time 1492714923. */
  lemma SolicitFixture()
    ensures Messages.Decode([1, 1, 226, 64, 0, 1, 0, 14, 0, 1, 0, 1, 32, 138, 112, 171, 82, 84, 0, 250, 153, 31])
         == Ok(SolicitMessage())
  {
    SolicitBytes();
    assert Valid(SolicitMessage().options[0]);
    ModSmall(123456, TWO24);
    DecodeMarshal(SolicitMessage());
  }

  /** The options the Solicit test looks up. */
  lemma SolicitLookups()
    ensures HasOption(SolicitMessage(), CLIENT_ID).Present?
    ensures HasOption(SolicitMessage(), AUTHENTICATION).Absent?
  {
  }

  function AdvertiseMessage(): Message
  {
    Message(2, 234567, [IaNa(16423199, 300, 450, []), OptionRequest([])])
  }

  lemma AdvertiseIaNaBytes()
    ensures Options.Marshal(AdvertiseMessage().options[0])
         == [0, 3, 0, 12, 0, 250, 153, 31, 0, 0, 1, 44, 0, 0, 1, 194]
  {
    var ia := AdvertiseMessage().options[0];
    var body: Bytes := [0, 250, 153, 31, 0, 0, 1, 44, 0, 0, 1, 194];
    assert Body(ia) == body by {
      assert Be32(16423199) == [0, 250, 153, 31];
      assert Be32(300) == [0, 0, 1, 44];
      assert Be32(450) == [0, 0, 1, 194];
      assert ListMarshal([]) == [];
    }
    ModSmall(12, TWO16);
    assert Len(ia) == 12;
    assert Be16(IA_NA) == [0, 3] && Be16(12) == [0, 12];
    assert Options.Marshal(ia) == [0, 3] + [0, 12] + body;
  }

  lemma AdvertiseOptionBytes()
    ensures ListMarshal(AdvertiseMessage().options)
         == [0, 3, 0, 12, 0, 250, 153, 31, 0, 0, 1, 44, 0, 0, 1, 194, 0, 6, 0, 0]
  {
    var m := AdvertiseMessage();
    var ia, req := m.options[0], m.options[1];
    AdvertiseIaNaBytes();
    assert Options.Marshal(req) == [0, 6, 0, 0];
    assert ListMarshal(m.options) == Options.Marshal(ia) + (Options.Marshal(req) + []) by {
      assert m.options[1..] == [req];
      assert ListMarshal([req]) == Options.Marshal(req) + ListMarshal([]);
    }
  }

  lemma AdvertiseBytes()
    ensures Messages.Marshal(AdvertiseMessage())
         == [2, 3, 148, 71, 0, 3, 0, 12, 0, 250, 153, 31, 0, 0, 1, 44, 0, 0, 1, 194, 0, 6, 0, 0]
  {
    var m := AdvertiseMessage();
    var xb: Bytes := [3, 148, 71];
    var ob: Bytes := [0, 3, 0, 12, 0, 250, 153, 31, 0, 0, 1, 44, 0, 0, 1, 194, 0, 6, 0, 0];
    assert ListMarshal(m.options) == ob by {
      AdvertiseOptionBytes();
    }
    assert Be32(m.xid)[1..] == xb;
    MarshalBytes(m, xb, ob);
    AdvertiseLiteral();
  }

  lemma AdvertiseLiteral()
    ensures var a: Bytes := [2] + [3, 148, 71] + [0, 3, 0, 12, 0, 250, 153, 31, 0, 0, 1, 44, 0, 0, 1, 194, 0, 6, 0, 0];
      a == [2, 3, 148, 71, 0, 3, 0, 12, 0, 250, 153, 31, 0, 0, 1, 44, 0, 0, 1, 194, 0, 6, 0, 0]
  {
  }

  /** The Advertise fixture: an IA_NA with T1 300 and T2 450 (raw counts)
      and an empty Option Request. */
  lemma AdvertiseFixture()
    ensures Messages.Decode([2, 3, 148, 71, 0, 3, 0, 12, 0, 250, 153, 31, 0, 0, 1, 44, 0, 0, 1, 194, 0, 6, 0, 0])
         == Ok(AdvertiseMessage())
  {
    AdvertiseBytes();
    var m := AdvertiseMessage();
    assert AllValid(m.options) by {
      assert Valid(m.options[0]) && Valid(m.options[1]);
    }
    ModSmall(234567, TWO24);
    DecodeMarshal(m);
  }

  /** The options the Advertise test looks up. */
  lemma AdvertiseLookups()
    ensures HasOption(AdvertiseMessage(), IA_NA).Present?
    ensures HasOption(AdvertiseMessage(), OPTION_REQUEST).Present?
    ensures HasOption(AdvertiseMessage(), INTERFACE_ID).Absent?
  {
    var m := AdvertiseMessage();
    assert Code(m.options[0]) == IA_NA && Code(m.options[1]) == OPTION_REQUEST;
  }

  /** The Request fixture carries the Advertise options under another type
      and transaction id. */
  function RequestMessage(): Message
  {
    Message(3, 345678, AdvertiseMessage().options)
  }

  lemma RequestBytes()
    ensures Messages.Marshal(RequestMessage())
         == [3, 5, 70, 78, 0, 3, 0, 12, 0, 250, 153, 31, 0, 0, 1, 44, 0, 0, 1, 194, 0, 6, 0, 0]
  {
    var m := RequestMessage();
    var xb: Bytes := [5, 70, 78];
    var ob: Bytes := [0, 3, 0, 12, 0, 250, 153, 31, 0, 0, 1, 44, 0, 0, 1, 194, 0, 6, 0, 0];
    assert ListMarshal(m.options) == ob by {
      AdvertiseOptionBytes();
    }
    assert Be32(m.xid)[1..] == xb;
    MarshalBytes(m, xb, ob);
    RequestLiteral();
  }

  lemma RequestLiteral()
    ensures var a: Bytes := [3] + [5, 70, 78] + [0, 3, 0, 12, 0, 250, 153, 31, 0, 0, 1, 44, 0, 0, 1, 194, 0, 6, 0, 0];
      a == [3, 5, 70, 78, 0, 3, 0, 12, 0, 250, 153, 31, 0, 0, 1, 44, 0, 0, 1, 194, 0, 6, 0, 0]
  {
  }

  lemma RequestFixture()
    ensures Messages.Decode([3, 5, 70, 78, 0, 3, 0, 12, 0, 250, 153, 31, 0, 0, 1, 44, 0, 0, 1, 194, 0, 6, 0, 0])
         == Ok(RequestMessage())
  {
    RequestBytes();
    var m := RequestMessage();
    assert AllValid(m.options) by {
      assert Valid(m.options[0]) && Valid(m.options[1]);
    }
    ModSmall(345678, TWO24);
    DecodeMarshal(m);
  }

  /** The options the Request test looks up. */
  lemma RequestLookups()
    ensures HasOption(RequestMessage(), IA_NA).Present?
    ensures HasOption(RequestMessage(), OPTION_REQUEST).Present?
    ensures HasOption(RequestMessage(), INTERFACE_ID).Absent?
  {
    var m := RequestMessage();
    assert Code(m.options[0]) == IA_NA && Code(m.options[1]) == OPTION_REQUEST;
  }

  /** `HasOption` looks at the top-level list only: an IA Address nested in
      an IA_NA is not found. */
  lemma HasOptionIsShallow()
    ensures var ia := IaNa(1, 0, 0, [IaAddress([0, 0, 0, 0, 0, 0, 0, 0, 0, 0, 0, 0, 0, 0, 0, 1], 0, 0)]);
      && HasOption(Message(1, 1, [ia]), IA_NA) == Container.Present(ia)
      && HasOption(Message(1, 1, [ia]), IA_ADDRESS) == Container.Absent
  {
  }

  /** The nested IA_NA fixture of the option tests: an IA_NA holding one IA
      Address, fdd4:4732:15d9:ea6a::1000 with lifetimes 3600 and 7200 (raw
      counts, as the decoder reads them). */
  function NestedIaNa(): Option
  {
    IaNa(16423199, 300, 450,
         [IaAddress([253, 212, 71, 50, 21, 217, 234, 106, 0, 0, 0, 0, 0, 0, 16, 0], 3600, 7200)])
  }

  lemma NestedIaAddressBody()
    ensures Body(NestedIaNa().options[0])
         == [253, 212, 71, 50, 21, 217, 234, 106, 0, 0, 0, 0, 0, 0, 16, 0] + [0, 0, 14, 16] + [0, 0, 28, 32]
  {
    ModSmall(3600, TWO32);
    ModSmall(7200, TWO32);
    assert Be32(3600) == [0, 0, 14, 16] && Be32(7200) == [0, 0, 28, 32];
  }

  lemma NestedIaAddressBytes()
    ensures Options.Marshal(NestedIaNa().options[0])
         == [0, 5, 0, 24, 253, 212, 71, 50, 21, 217, 234, 106, 0, 0, 0, 0, 0, 0, 16, 0,
             0, 0, 14, 16, 0, 0, 28, 32]
  {
    var a := NestedIaNa().options[0];
    NestedIaAddressBody();
    assert Be16(IA_ADDRESS) == [0, 5] && Be16(Len(a)) == [0, 24];
    NestedIaAddressLiteral();
  }

  lemma NestedIaAddressLiteral()
    ensures var a: Bytes := [0, 5] + [0, 24]
          + ([253, 212, 71, 50, 21, 217, 234, 106, 0, 0, 0, 0, 0, 0, 16, 0] + [0, 0, 14, 16] + [0, 0, 28, 32]);
      a == [0, 5, 0, 24, 253, 212, 71, 50, 21, 217, 234, 106, 0, 0, 0, 0, 0, 0, 16, 0,
            0, 0, 14, 16, 0, 0, 28, 32]
  {
  }

  lemma NestedIaNaLen()
    ensures Len(NestedIaNa()) == 40
  {
    var ia := NestedIaNa();
    assert ListLen(ia.options) == 28 by {
      assert ListLen(ia.options) == (Len(ia.options[0]) + 4 + ListLen([])) % TWO16;
    }
    ModSmall(40, TWO16);
  }

  lemma NestedIaNaBody()
    ensures Body(NestedIaNa())
         == [0, 250, 153, 31, 0, 0, 1, 44, 0, 0, 1, 194]
          + [0, 5, 0, 24, 253, 212, 71, 50, 21, 217, 234, 106, 0, 0, 0, 0, 0, 0, 16, 0,
             0, 0, 14, 16, 0, 0, 28, 32]
  {
    var ia := NestedIaNa();
    NestedIaAddressBytes();
    assert ListMarshal(ia.options) == Options.Marshal(ia.options[0]) + ListMarshal([]);
    NestedIaNaFixedFields();
    assert Body(ia) == (Be32(16423199) + Be32(300 % TWO32) + Be32(450 % TWO32)) + ListMarshal(ia.options);
  }

  /** The IA_NA's IAID, T1 and T2 as three big-endian words. */
  lemma NestedIaNaFixedFields()
    ensures Be32(16423199) + Be32(300 % TWO32) + Be32(450 % TWO32)
         == [0, 250, 153, 31, 0, 0, 1, 44, 0, 0, 1, 194]
  {
    ModSmall(300, TWO32);
    ModSmall(450, TWO32);
    assert Be32(16423199) == [0, 250, 153, 31];
    assert Be32(300) == [0, 0, 1, 44] && Be32(450) == [0, 0, 1, 194];
  }

  /** The encoding in two parts: the IA_NA header and fixed fields, then the
      nested IA Address. */
  lemma NestedIaNaMarshal()
    ensures Options.Marshal(NestedIaNa())
         == [0, 3, 0, 40, 0, 250, 153, 31, 0, 0, 1, 44, 0, 0, 1, 194]
          + [0, 5, 0, 24, 253, 212, 71, 50, 21, 217, 234, 106, 0, 0, 0, 0, 0, 0, 16, 0,
             0, 0, 14, 16, 0, 0, 28, 32]
  {
    var ia := NestedIaNa();
    var head: Bytes := Be16(IA_NA) + Be16(Len(ia));
    var fixed: Bytes := [0, 250, 153, 31, 0, 0, 1, 44, 0, 0, 1, 194];
    var nested: Bytes := [0, 5, 0, 24, 253, 212, 71, 50, 21, 217, 234, 106, 0, 0, 0, 0, 0, 0, 16, 0,
                          0, 0, 14, 16, 0, 0, 28, 32];
    assert Options.Marshal(ia) == head + Body(ia);
    NestedIaNaBody();
    assert Body(ia) == fixed + nested;
    assert head + (fixed + nested) == (head + fixed) + nested;
    NestedIaNaLen();
    assert head == Be16(IA_NA) + Be16(40);
    NestedIaNaHead();
  }

  /** The IA_NA header (type 3, length 40) followed by its fixed fields. */
  lemma NestedIaNaHead()
    ensures Be16(IA_NA) + Be16(40) + [0, 250, 153, 31, 0, 0, 1, 44, 0, 0, 1, 194]
         == [0, 3, 0, 40, 0, 250, 153, 31, 0, 0, 1, 44, 0, 0, 1, 194]
  {
    assert Be16(IA_NA) == [0, 3] && Be16(40) == [0, 40];
  }

  lemma NestedIaNaBytes()
    ensures ListMarshal([NestedIaNa()]) == Options.Marshal(NestedIaNa())
  {
    var ia := NestedIaNa();
    assert ListMarshal([ia]) == Options.Marshal(ia) + ListMarshal([]);
    assert ListMarshal([]) == [];
  }

  /** The fixture decodes to the IA_NA with exactly one nested option, the
      IA Address, which a lookup on the IA_NA's list finds. */
  lemma NestedIaNaFixture()
    ensures OptionDecode.DecodeOptions(
              [0, 3, 0, 40, 0, 250, 153, 31, 0, 0, 1, 44, 0, 0, 1, 194]
            + [0, 5, 0, 24, 253, 212, 71, 50, 21, 217, 234, 106, 0, 0, 0, 0, 0, 0, 16, 0,
               0, 0, 14, 16, 0, 0, 28, 32])
         == Ok([NestedIaNa()])
    ensures |NestedIaNa().options| == 1
    ensures Container.HasOption(NestedIaNa().options, IA_ADDRESS) == Container.Present(NestedIaNa().options[0])
  {
    var ia := NestedIaNa();
    NestedIaNaMarshal();
    NestedIaNaBytes();
    assert Valid(ia.options[0]);
    assert AllValid([ia]) by {
      assert Valid(ia);
    }
    RoundTrip.DecodeListMarshal([ia]);
  }
}
