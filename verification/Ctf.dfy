/** CTF trace packets: the 40-byte header, the 38-byte coroutine event, and the host's decoder. */
module Ctf {
  import opened Prelude
  import opened Bytes

  const MAGIC: U32 := 0xC1FC_1FC1

  datatype Header = Header(stream: Byte, packetBits: U32, contentBits: U32, begin: U64, end: U64, discarded: U32)

  /** A coroutine event in its two forms: text fields with their padding, and as text. */
  datatype CoroEvent = CoroEvent(id: Byte, at: U64, task: U32, handle: U32, state: Byte, reason: Byte,
                         name: seq<Byte>, token: seq<Byte>)

  datatype Error = TooShort | BadMagic | BadContentSize | BadPacketSize | BadStatus | BadRecords | BadEvents

  datatype Packet = Packet(header: Header, events: seq<CoroEvent>, raw: Option<seq<Byte>>)

  // ---------------------------------------------------------------------------
  // Layout
  // ---------------------------------------------------------------------------

  function HeaderBytes(h: Header): (s: seq<Byte>)
    ensures |s| == 40
  {
    LE(MAGIC, 4) + [h.stream, 0, 0, 0] + LE(h.packetBits, 4) + LE(h.contentBits, 4)
    + LE(h.begin, 8) + LE(h.end, 8) + LE(h.discarded, 4) + [0, 0, 0, 0]
  }

  function ReadHeader(s: seq<Byte>): Header
    requires |s| >= 40
  {
    Header(s[4], Fix32(s[8..12]), Fix32(s[12..16]), Fix64(s[16..24]), Fix64(s[24..32]), Fix32(s[32..36]))
  }

  lemma HeaderRoundTrip(h: Header, body: seq<Byte>)
    ensures var s := HeaderBytes(h) + body;
      Fix32(s[0..4]) == MAGIC && ReadHeader(s) == h && s[40..] == body
  {
    ReadBacks();
    var s := HeaderBytes(h) + body;
    assert s[0..4] == LE(MAGIC, 4);
    assert s[4..8] == [h.stream, 0, 0, 0] && s[4] == s[4..8][0];
    assert s[8..12] == LE(h.packetBits, 4) && s[12..16] == LE(h.contentBits, 4);
    assert s[16..24] == LE(h.begin, 8) && s[24..32] == LE(h.end, 8) && s[32..36] == LE(h.discarded, 4);
  }

  /** `name` and `token` are the 8 and 11 bytes of the record. */
  function EventBytes(e: CoroEvent): (s: seq<Byte>)
    requires |e.name| == 8 && |e.token| == 11
    ensures |s| == 38
  {
    [e.id] + LE(e.at, 8) + LE(e.task, 4) + LE(e.handle, 4) + [e.state, e.reason] + e.name + e.token
  }

  /** The text before the first NUL. */
  function CStr(raw: seq<Byte>): seq<Byte> {
    if raw == [] || raw[0] == 0 then [] else [raw[0]] + CStr(raw[1..])
  }

  function ReadEvent(s: seq<Byte>): CoroEvent
    requires |s| == 38
  {
    CoroEvent(s[0], Fix64(s[1..9]), Fix32(s[9..13]), Fix32(s[13..17]), s[17], s[18], CStr(s[19..27]), CStr(s[27..38]))
  }

  lemma EventRoundTrip(e: CoroEvent)
    requires |e.name| == 8 && |e.token| == 11
    ensures ReadEvent(EventBytes(e)) == e.(name := CStr(e.name), token := CStr(e.token))
  {
    ReadBacks();
    var s := EventBytes(e);
    assert s[0..1] == [e.id] && s[0] == s[0..1][0];
    assert s[1..9] == LE(e.at, 8) && s[9..13] == LE(e.task, 4) && s[13..17] == LE(e.handle, 4);
    assert s[17..19] == [e.state, e.reason] && s[17] == s[17..19][0] && s[18] == s[17..19][1];
    assert s[19..27] == e.name && s[27..38] == e.token;
  }

  // ---------------------------------------------------------------------------
  // The decoder
  // ---------------------------------------------------------------------------

  function ReadEvents(body: seq<Byte>): seq<CoroEvent> {
    if |body| < 38 then [] else [ReadEvent(body[..38])] + ReadEvents(body[38..])
  }

  /** A whole number of records. */
  ghost predicate Whole(body: seq<Byte>) {
    |body| == 38 * |ReadEvents(body)|
  }

  lemma {:induction false} WholeExact(body: seq<Byte>)
    ensures Whole(body) <==> |body| % 38 == 0
    ensures |ReadEvents(body)| == |body| / 38
  {
    if |body| >= 38 {
      WholeExact(body[38..]);
    }
  }

  lemma {:induction false} ReadAppended(body: seq<Byte>, e: seq<Byte>)
    requires Whole(body) && |e| == 38
    ensures ReadEvents(body + e) == ReadEvents(body) + [ReadEvent(e)] && Whole(body + e)
  {
    if body == [] {
      assert body + e == e && e[38..] == [] && e[..38] == e;
    } else {
      assert (body + e)[..38] == body[..38] && (body + e)[38..] == body[38..] + e;
      ReadAppended(body[38..], e);
    }
  }

  /** The event id, header and record size of the record streams: samples and spans. */
  function RecordStream(stream: Byte): Option<(Byte, nat, nat)> {
    if stream == 4 then Some((0x30, 16, 8)) else if stream == 5 then Some((0x31, 24, 16)) else None
  }

  function DecodeBody(h: Header, body: seq<Byte>, data: seq<Byte>): Result<Packet, Error> {
    if h.stream == 3 then
      if |body| < 56 || body[0] != 0x20 then Err(BadStatus) else Ok(Packet(h, [], Some(data)))
    else match RecordStream(h.stream)
      case Some((id, head, record)) =>
        if |body| < head || body[0] != id || (|body| - head) % record != 0 then Err(BadRecords)
        else Ok(Packet(h, [], Some(data)))
      case None =>
        if h.stream != 0 || |body| % 38 != 0 then Err(BadEvents)
        else Ok(Packet(h, ReadEvents(body), None))
  }

  function FramingFault(magic: U32, h: Header, length: nat): Option<Error> {
    if magic != MAGIC then Some(BadMagic)
    else if h.contentBits % 8 != 0 || h.contentBits / 8 != length then Some(BadContentSize)
    else if h.packetBits < h.contentBits then Some(BadPacketSize)
    else None
  }

  function DecodeSpec(data: seq<Byte>): Result<Packet, Error> {
    if |data| < 40 then Err(TooShort)
    else
      var fault := FramingFault(Fix32(data[0..4]), ReadHeader(data), |data|);
      if fault.Some? then Err(fault.value) else DecodeBody(ReadHeader(data), data[40..], data)
  }

  method DecodeEvents(body: seq<Byte>) returns (events: seq<CoroEvent>)
    requires |body| % 38 == 0
    ensures events == ReadEvents(body)
  {
    events := [];
    var off := 0;
    ghost var n, k := |body| / 38, 0;
    while off < |body|
      invariant off == 38 * k && k <= n && Whole(body[..off])
      invariant events == ReadEvents(body[..off])
    {
      assert body[..off + 38] == body[..off] + body[off..off + 38];
      ReadAppended(body[..off], body[off..off + 38]);
      events := events + [ReadEvent(body[off..off + 38])];
      off, k := off + 38, k + 1;
    }
    assert body[..off] == body;
  }

  method DecodeCtfPacket(data: seq<Byte>) returns (r: Result<Packet, Error>)
    ensures r == DecodeSpec(data)
  {
    if |data| < 40 {
      return Err(TooShort);
    }
    if Fix32(data[0..4]) != MAGIC {
      return Err(BadMagic);
    }
    var h := ReadHeader(data);
    var content := h.contentBits / 8;
    if h.contentBits % 8 != 0 || content != |data| {
      return Err(BadContentSize);
    }
    if h.packetBits < h.contentBits {
      return Err(BadPacketSize);
    }
    var body := data[40..content];
    assert body == data[40..];
    if h.stream == 3 {
      if |body| < 56 || body[0] != 0x20 {
        return Err(BadStatus);
      }
      return Ok(Packet(h, [], Some(data)));
    }
    if h.stream == 4 || h.stream == 5 {
      var (id, head, record) := RecordStream(h.stream).value;
      if |body| < head || body[0] != id || (|body| - head) % record != 0 {
        return Err(BadRecords);
      }
      return Ok(Packet(h, [], Some(data)));
    }
    if h.stream != 0 || |body| % 38 != 0 {
      return Err(BadEvents);
    }
    var events := DecodeEvents(body);
    return Ok(Packet(h, events, None));
  }

  /** A packet whose header tells its length is accepted exactly when its body suits its stream. */
  predicate BodySuits(stream: Byte, body: seq<Byte>) {
    || (stream == 0 && |body| % 38 == 0)
    || (stream == 3 && |body| >= 56 && body[0] == 0x20)
    || (stream == 4 && |body| >= 16 && body[0] == 0x30 && (|body| - 16) % 8 == 0)
    || (stream == 5 && |body| >= 24 && body[0] == 0x31 && (|body| - 24) % 16 == 0)
  }

  function BodyError(stream: Byte): Error {
    if stream == 3 then BadStatus else if stream == 4 || stream == 5 then BadRecords else BadEvents
  }

  lemma BodyAccepted(h: Header, body: seq<Byte>, data: seq<Byte>)
    ensures var r := DecodeBody(h, body, data);
      && (r.Ok? <==> BodySuits(h.stream, body))
      && (r.Ok? ==> r.value.header == h && r.value.events == if h.stream == 0 then ReadEvents(body) else [])
      && (r.Ok? ==> r.value.raw == if h.stream == 0 then None else Some(data))
      && (r.Err? ==> r.error == BodyError(h.stream))
  {
  }

  lemma NoFault(h: Header, length: nat)
    requires h.contentBits == 8 * length && h.contentBits <= h.packetBits
    ensures FramingFault(MAGIC, h, length).None?
  {
  }

  lemma WellFramed(h: Header, body: seq<Byte>)
    requires h.contentBits == 8 * (40 + |body|) && h.contentBits <= h.packetBits
    ensures var r := DecodeSpec(HeaderBytes(h) + body);
      && (r.Ok? <==> BodySuits(h.stream, body))
      && (r.Ok? ==> r.value.header == h && r.value.events == if h.stream == 0 then ReadEvents(body) else [])
  {
    var data := HeaderBytes(h) + body;
    HeaderRoundTrip(h, body);
    NoFault(h, |data|);
    BodyAccepted(h, body, data);
  }

  /** The bytes are a packet of the stream they name: whole header, right magic, the length they
      announce, room for it in the announced packet, and a body that suits the stream. */
  predicate IsPacket(data: seq<Byte>) {
    && |data| >= 40 && Fix32(data[0..4]) == MAGIC && Fix32(data[12..16]) == 8 * |data|
    && Fix32(data[8..12]) >= Fix32(data[12..16]) && BodySuits(data[4], data[40..])
  }

  /** Of all byte strings exactly the packets are accepted; the result is then read from the bytes,
      and otherwise the error is that of the first condition that fails. */
  lemma AcceptedExactly(data: seq<Byte>)
    ensures var r := DecodeSpec(data);
      && (r.Ok? <==> IsPacket(data))
      && (r.Ok? ==>
            && r.value.header == ReadHeader(data)
            && r.value.events == (if data[4] == 0 then ReadEvents(data[40..]) else [])
            && r.value.raw == if data[4] == 0 then None else Some(data))
      && (r == Err(TooShort) <==> |data| < 40)
      && (r == Err(BadMagic) <==> |data| >= 40 && Fix32(data[0..4]) != MAGIC)
      && (r == Err(BadContentSize) <==>
            |data| >= 40 && Fix32(data[0..4]) == MAGIC && Fix32(data[12..16]) != 8 * |data|)
      && (r == Err(BadPacketSize) <==>
            && |data| >= 40 && Fix32(data[0..4]) == MAGIC && Fix32(data[12..16]) == 8 * |data|
            && Fix32(data[8..12]) < 8 * |data|)
      && (r.Err? && r.error !in {TooShort, BadMagic, BadContentSize, BadPacketSize} ==> r == Err(BodyError(data[4])))
  {
    if |data| >= 40 {
      BodyAccepted(ReadHeader(data), data[40..], data);
    }
  }
}
