/** DHCPv6 messages (message.go): a 1-byte message type, a 24-bit
    transaction id and the options, as laid out in section 6 of RFC 3315.
    Relay messages are not distinguished: every message is decoded with this
    layout. */
module Messages {
  import opened Wire
  import opened Options
  import opened OptionDecode
  import Container
  import RoundTrip
  import OptionLaws

  /** `xid` is a Go `uint32`; only its low 24 bits are written. */
  datatype Message = Message(messageType: uint8, xid: uint32, options: seq<Option>)

  /** The 24-bit transaction id in bytes 1 to 3 (`Uint32` of a zero byte
      followed by them). */
  function Xid(data: Bytes): (x: uint32)
    requires |data| >= 4
    ensures x < TWO24
    ensures Be32(x) == [0] + data[1..4]
  {
    var b := [0] + data[1..4];
    Be32OfUint32At(b, 0);
    Uint32At(b, 0)
  }

  /** Bytes 1 to 3 of `PutUint32(x)` read back as the low 24 bits of `x`. */
  lemma XidOfBe32(x: uint32, t: uint8, post: Bytes)
    ensures Xid([t] + Be32(x)[1..] + post) == x % TWO24
  {
    var b := [t] + Be32(x)[1..] + post;
    var hi, lo := x / 0x1_0000, x % 0x1_0000;
    assert b[1..4] == [hi % 0x100, lo / 0x100, lo % 0x100];
    assert Uint32At([0] + b[1..4], 0) == (hi % 0x100) * 0x1_0000 + lo;
    assert x % TWO24 == (hi % 0x100) * 0x1_0000 + lo by {
      assert x == hi * 0x1_0000 + lo;
      assert hi == (hi / 0x100) * 0x100 + hi % 0x100;
      assert x == (hi / 0x100) * TWO24 + ((hi % 0x100) * 0x1_0000 + lo);
      assert 0 <= (hi % 0x100) * 0x1_0000 + lo < TWO24;
    }
  }

  /** The layout of an encoded message with at least one option. */
  lemma MarshalBytes(m: Message, xb: Bytes, ob: Bytes)
    requires Be32(m.xid)[1..] == xb && ListMarshal(m.options) == ob && |m.options| > 0
    ensures Marshal(m) == [m.messageType] + xb + ob
  {
  }

  /** `Message.Marshal`: `PutUint32(xid)` over the first 4 bytes, byte 0
      overwritten by the type, then the options when there are any. */
  function Marshal(m: Message): (r: Bytes)
    ensures |r| == 4 + ListSize(m.options)
    ensures r[0] == m.messageType
    ensures r[4..] == ListMarshal(m.options)
  {
    var options := if |m.options| > 0 then ListMarshal(m.options) else [];
    [m.messageType] + Be32(m.xid)[1..] + options
  }

  /** `Message.Marshal` with its abort: the options' encoder aborts when an
      Option Request anywhere in them carries more than `MAX_REQUESTED`
      codes, and the message encoder with it. */
  function Encode(m: Message): (r: Result<Bytes>)
    ensures r.Ok? || r.Panic?
    ensures r.Ok? <==> forall i | 0 <= i < |m.options| :: RequestsFit(m.options[i])
    ensures r.Ok? ==> r.value == Marshal(m)
  {
    OptionLaws.ListEncodeMarshal(m.options);
    var options :- if |m.options| > 0 then ListEncode(m.options) else Ok([]);
    Ok([m.messageType] + Be32(m.xid)[1..] + options)
  }

  /** The transaction id reads back from an encoded message cut to 24 bits. */
  lemma MarshalXid(m: Message)
    ensures Xid(Marshal(m)) == m.xid % TWO24
  {
    var options := if |m.options| > 0 then ListMarshal(m.options) else [];
    XidOfBe32(m.xid, m.messageType, options);
  }

  /** `DecodeMessage`. */
  function Decode(data: Bytes): (r: Result<Message>)
    ensures r == Fail(MessageTooShort) <==> |data| < 4
    ensures r.Ok? ==> r.value.messageType == data[0] && r.value.xid == Xid(data)
    ensures |data| == 4 ==> r.Ok? && r.value.options == []
    ensures |data| > 4 ==> (r.Ok? <==> DecodeOptions(data[4..]).Ok?)
    ensures |data| > 4 && r.Ok? ==> r.value.options == DecodeOptions(data[4..]).value
    ensures |data| > 4 && DecodeOptions(data[4..]).Fail? ==>
              r == Fail(BadOptions(DecodeOptions(data[4..]).error))
  {
    if |data| < 4 then Fail(MessageTooShort)
    else
      var m := Message(data[0], Xid(data), []);
      if |data| > 4 then
        match DecodeOptions(data[4..])
        case Ok(os) => Ok(m.(options := os))
        case Fail(e) => Fail(BadOptions(e))
        case Panic => Panic
        case Hang => Hang
      else Ok(m)
  }

  /** `Message.HasOption`: the first top-level option of type `t`. */
  function HasOption(m: Message, t: uint8): (r: Container.Lookup)
    ensures r.Present? <==> exists i | 0 <= i < |m.options| :: Code(m.options[i]) == t
    ensures r.Present? ==> exists i | 0 <= i < |m.options| :: && m.options[i] == r.option
                                                             && Code(m.options[i]) == t
                                                             && forall j | 0 <= j < i :: Code(m.options[j]) != t
  {
    Container.HasOption(m.options, t)
  }

  /** `Message.AddOption`: appends. */
  function AddOption(m: Message, o: Option): (r: Message)
    ensures r.messageType == m.messageType && r.xid == m.xid
    ensures r.options == m.options + [o]
  {
    m.(options := Container.AddOption(m.options, o))
  }

  /** After `AddOption`, a lookup finds the option it found before, or the
      added one when the message had no option of that type. */
  lemma HasOptionAfterAdd(m: Message, o: Option, t: uint8)
    ensures HasOption(AddOption(m, o), t) ==
              if HasOption(m, t).Present? then HasOption(m, t)
              else if Code(o) == t then Container.Present(o)
              else Container.Absent
  {
    Container.HasOptionAfterAdd(m.options, o, t);
  }

  /** Value round trip: a message with valid options encodes without
      aborting and decodes back from its encoding, with the transaction id
      cut to 24 bits. */
  lemma DecodeMarshal(m: Message)
    requires AllValid(m.options)
    ensures Encode(m) == Ok(Marshal(m))
    ensures Decode(Marshal(m)) == Ok(m.(xid := m.xid % TWO24))
  {
    var b := Marshal(m);
    OptionLaws.ValidEncodes(m.options);
    MarshalXid(m);
    if |m.options| > 0 {
      RoundTrip.DecodeListMarshal(m.options);
      assert Size(m.options[0]) >= 4;
    }
  }

  /** Re-encoding a decoded message reproduces its first 4 bytes: the type
      and the transaction id survive unchanged. */
  lemma HeaderReproduced(data: Bytes)
    requires Decode(data).Ok?
    ensures Marshal(Decode(data).value)[..4] == data[..4]
  {
    var m := Decode(data).value;
    var r := Marshal(m);
    MarshalXid(m);
    assert Be32(Xid(r)) == [0] + r[1..4];
    assert Be32(Xid(data)) == [0] + data[1..4];
    assert r[1..4] == Be32(Xid(r))[1..];
    assert r[..4] == [r[0]] + r[1..4];
    assert data[..4] == [data[0]] + data[1..4];
  }

  /** ... and the whole input whenever the options re-encode to the bytes
      they came from. */
  lemma ByteRoundTrip(data: Bytes)
    requires Decode(data).Ok?
    requires ListMarshal(Decode(data).value.options) == data[4..]
    ensures Marshal(Decode(data).value) == data
  {
    HeaderReproduced(data);
    var r := Marshal(Decode(data).value);
    assert r == r[..4] + r[4..];
    assert data == data[..4] + data[4..];
  }
}
