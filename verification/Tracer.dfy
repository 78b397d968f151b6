/** The trace engine writes events in place into lent packet buffers; the host decodes what it
    sends. Together: every accepted coroutine event arrives, once and in order. */
module Tracers {
  import opened Prelude
  import opened Bytes
  import opened Ctf
  import opened Rings

  /** A packet being filled: the lent buffer's size, the opening time, the bytes after the header. */
  datatype Filling = Filling(room: nat, begin: U64, body: seq<Byte>)

  type Draft = p: Filling | 40 + |p.body| <= p.room < 0x2000_0000 witness Filling(40, 0, [])
  type Room = r: nat | r < 0x2000_0000

  /** The engine and the packets it has handed to the transport. */
  datatype Tracer = Tracer(packet: Option<Draft>, discarded: U32, sent: seq<seq<Byte>>)

  function HeaderOf(p: Draft, stream: Byte, end: U64, discarded: U32): Header {
    Header(stream, p.room * 8, (40 + |p.body|) * 8, p.begin, end, discarded)
  }

  function Commit(t: Tracer, stream: Byte, now: U64): Tracer {
    if t.packet.None? then t
    else
      var p := t.packet.value;
      t.(packet := None, sent := t.sent + [HeaderBytes(HeaderOf(p, stream, now, t.discarded)) + p.body])
  }

  function Opened(t: Tracer, room: Room, now: U64): Tracer {
    if room < 40 then t else t.(packet := Some(Filling(room, now, [])))
  }

  /** The 32-bit counter after `d`. */
  function Next(d: U32): U32 {
    if d == 0xFFFF_FFFF then 0 else d + 1
  }

  function Discarding(t: Tracer): Tracer {
    t.(discarded := Next(t.discarded))
  }

  /** Sends the open packet if `n` more bytes do not fit it. */
  function Rolled(t: Tracer, n: nat, now: U64): Tracer {
    if t.packet.Some? && 40 + |t.packet.value.body| + n > t.packet.value.room then Commit(t, 0, now) else t
  }

  function Appended(t: Tracer, ev: seq<Byte>): (Tracer, bool) {
    if t.packet.None? then (Discarding(t), false)
    else
      var p := t.packet.value;
      if 40 + |p.body| + |ev| > p.room then (Discarding(t), false)
      else (t.(packet := Some(p.(body := p.body + ev))), true)
  }

  /** `emplace`; `room` is the size of the buffer the transport lends if asked, 0 for none. */
  function EmplaceSpec(t: Tracer, ev: seq<Byte>, room: Room, now: U64): (Tracer, bool) {
    var a := Rolled(t, |ev|, now);
    Appended(if a.packet.None? then Opened(a, room, now) else a, ev)
  }

  function FlushSpec(t: Tracer, now: U64): Tracer {
    if t.packet.Some? && t.packet.value.body != [] then Commit(t, 0, now) else t
  }

  function EmitSpec(t: Tracer, stream: Byte, bytes: seq<Byte>, room: Room, now: U64): (Tracer, bool) {
    var a := FlushSpec(t, now);
    if a.packet.Some? then (Discarding(a), false)
    else
      var b := Opened(a, room, now);
      if b.packet.None? then (Discarding(b), false)
      else if 40 + |bytes| > b.packet.value.room then (Commit(Discarding(b), 0, now), false)
      else (Commit(b.(packet := Some(b.packet.value.(body := bytes))), stream, now), true)
  }

  // ---------------------------------------------------------------------------
  // The engine, in place
  // ---------------------------------------------------------------------------

  /** The text field a name is copied into: "?" by default, the last byte always NUL. */
  function NameField(name: seq<Byte>, size: nat): (f: seq<Byte>)
    requires size >= 2
    ensures |f| == size
  {
    var text := CStr(name);
    seq(size, i requires 0 <= i => if i < |text| && i < size - 1 then text[i] else if i == 0 then 63 else 0)
  }

  method FillName(name: seq<Byte>, size: nat) returns (f: seq<Byte>)
    requires size >= 2
    ensures f == NameField(name, size)
  {
    f := [63] + Zeros(size - 1);
    var i := 0;
    TextPrefix(name);
    while i < size - 1 && i < |name| && name[i] != 0
      invariant 0 <= i <= |CStr(name)| && i <= size - 1 && |f| == size
      invariant forall k :: 0 <= k < size ==> f[k] == if k < i then name[k] else if k == 0 then 63 else 0
    {
      f := f[i := name[i]];
      i := i + 1;
    }
  }

  /** The text stops at the end of the name or at its first NUL. */
  lemma {:induction false} TextPrefix(name: seq<Byte>)
    ensures CStr(name) <= name && 0 !in CStr(name)
    ensures |CStr(name)| < |name| ==> name[|CStr(name)|] == 0
  {
    if name != [] && name[0] != 0 {
      TextPrefix(name[1..]);
    }
  }

  lemma {:induction false} TextOf(text: seq<Byte>, padding: seq<Byte>)
    requires 0 !in text && padding != [] && padding[0] == 0
    ensures CStr(text + padding) == text
  {
    if text == [] {
      assert text + padding == padding;
    } else {
      assert (text + padding)[1..] == text[1..] + padding;
      TextOf(text[1..], padding);
    }
  }

  /** What the host shows for a name: the part that fits, or "?" for an empty one. */
  function Shown(name: seq<Byte>, size: nat): seq<Byte>
    requires size >= 2
  {
    var text := CStr(name);
    if text == [] then [63] else if |text| > size - 1 then text[..size - 1] else text
  }

  lemma NameArrives(name: seq<Byte>, size: nat)
    requires size >= 2
    ensures CStr(NameField(name, size)) == Shown(name, size)
  {
    TextPrefix(name);
    var shown, f := Shown(name, size), NameField(name, size);
    assert f == shown + f[|shown|..];
    TextOf(shown, f[|shown|..]);
  }

  /** A header field rewritten in place. */
  lemma Patched(buf: seq<Byte>, h: Header, bits: U32, end: U64, discarded: U32)
    requires |buf| >= 40 && buf[..40] == HeaderBytes(h)
    ensures var b := Put(Put(Put(buf, 12, LE(bits, 4)), 24, LE(end, 8)), 32, LE(discarded, 4));
      b[..40] == HeaderBytes(h.(contentBits := bits, end := end, discarded := discarded)) && b[40..] == buf[40..]
  {
    var a := LE(MAGIC, 4) + [h.stream, 0, 0, 0] + LE(h.packetBits, 4);
    var c := LE(h.begin, 8);
    assert buf[..12] == HeaderBytes(h)[..12] == a;
    assert buf[16..24] == HeaderBytes(h)[16..24] == c;
    assert buf[36..40] == HeaderBytes(h)[36..40] == [0, 0, 0, 0];
    var b := Put(Put(Put(buf, 12, LE(bits, 4)), 24, LE(end, 8)), 32, LE(discarded, 4));
    assert b[..40] == a + LE(bits, 4) + c + LE(end, 8) + LE(discarded, 4) + [0, 0, 0, 0];
  }

  lemma PatchedStream(buf: seq<Byte>, h: Header, stream: Byte)
    requires |buf| >= 40 && buf[..40] == HeaderBytes(h) && h.stream == 0
    ensures buf[4 := stream][..40] == HeaderBytes(h.(stream := stream)) && buf[4 := stream][40..] == buf[40..]
  {
    var rest := buf[8..40];
    assert rest == HeaderBytes(h)[8..40] == HeaderBytes(h.(stream := stream))[8..40];
    assert buf[..8] == HeaderBytes(h)[..8] == LE(MAGIC, 4) + [0, 0, 0, 0];
    assert buf[4 := stream][..40] == LE(MAGIC, 4) + [stream, 0, 0, 0] + rest;
  }

  lemma SplitAt40(b: seq<Byte>, buf: seq<Byte>, offset: nat)
    requires 40 <= offset <= |buf| == |b| && b[40..] == buf[40..]
    ensures b[..offset] == b[..40] + buf[40..offset]
  {
    assert b[40..offset] == b[40..][..offset - 40] == buf[40..][..offset - 40];
  }

  class CtfTraceEngine {
    var buf: seq<Byte>        // the lent buffer; empty when none is open
    var offset: nat           // bytes used in it
    var discarded: U32
    var sent: seq<seq<Byte>>  // what the transport was given
    ghost var header: Header

    ghost predicate Valid()
      reads this
    {
      buf != [] ==>
        && 40 <= offset <= |buf| < 0x2000_0000
        && header.packetBits == 8 * |buf|
        && buf[..40] == HeaderBytes(header)
    }

    ghost function View(): Tracer
      requires Valid()
      reads this
    {
      Tracer(if buf == [] then None else Some(Filling(|buf|, header.begin, buf[40..offset])), discarded, sent)
    }

    constructor ()
      ensures Valid() && View() == Tracer(None, 0, [])
    {
      buf, offset, discarded, sent := [], 0, 0, [];
      header := Header(0, 0, 0, 0, 0, 0);
    }

    method OpenPacket(lent: seq<Byte>, now: U64)
      requires Valid() && buf == [] && |lent| < 0x2000_0000
      modifies this
      ensures Valid() && View() == Opened(old(View()), |lent|, now) && (buf == [] || header.stream == 0)
    {
      if |lent| < 40 {
        return;
      }
      var h := Header(0, |lent| * 8, 40 * 8, now, 0, discarded);
      buf := Put(lent, 0, HeaderBytes(h));
      header := h;
      offset := 40;
    }

    method CommitPacket(now: U64)
      requires Valid()
      modifies this
      ensures Valid() && View() == Commit(old(View()), old(header.stream), now)
    {
      if buf == [] {
        return;
      }
      Patched(buf, header, offset * 8, now, discarded);
      var b := Put(Put(Put(buf, 12, LE(offset * 8, 4)), 24, LE(now, 8)), 32, LE(discarded, 4));
      SplitAt40(b, buf, offset);
      buf, sent := [], sent + [b[..offset]];
      offset := 0;
    }

    method Emplace(ev: seq<Byte>, lent: seq<Byte>, now: U64) returns (ok: bool)
      requires Valid() && |lent| < 0x2000_0000 && (buf == [] || header.stream == 0)
      modifies this
      ensures Valid() && (View(), ok) == EmplaceSpec(old(View()), ev, |lent|, now)
      ensures buf == [] || header.stream == 0
    {
      if buf != [] && offset + |ev| > |buf| {
        CommitPacket(now);
      }
      if buf == [] {
        OpenPacket(lent, now);
        if buf == [] {
          discarded := Next(discarded);
          return false;
        }
      }
      if offset + |ev| > |buf| {
        discarded := Next(discarded);
        return false;
      }
      Written(buf, offset, ev);
      buf := Put(buf, offset, ev);
      offset := offset + |ev|;
      return true;
    }

    method Flush(now: U64)
      requires Valid() && (buf == [] || header.stream == 0)
      modifies this
      ensures Valid() && View() == FlushSpec(old(View()), now) && (buf == [] || header.stream == 0)
    {
      if buf != [] && offset > 40 {
        CommitPacket(now);
      }
    }

    method TraceCoroNamed(task: U32, handle: U32, state: Byte, reason: Byte, name: seq<Byte>, token: seq<Byte>,
                          lent: seq<Byte>, now: U64)
      returns (ok: bool)
      requires Valid() && |lent| < 0x2000_0000 && (buf == [] || header.stream == 0)
      modifies this
      ensures Valid() && (buf == [] || header.stream == 0)
      ensures (View(), ok) ==
        EmplaceSpec(old(View()), EventBytes(Traced(task, handle, state, reason, name, token, now)), |lent|, now)
    {
      var nameField := FillName(name, 8);
      var tokenField := FillName(token, 11);
      ok := Emplace(EventBytes(CoroEvent(1, now, task, handle, state, reason, nameField, tokenField)), lent, now);
    }

    method EmitStreamPacket(stream: Byte, bytes: seq<Byte>, lent: seq<Byte>, now: U64) returns (ok: bool)
      requires Valid() && |lent| < 0x2000_0000 && (buf == [] || header.stream == 0)
      modifies this
      ensures Valid() && (View(), ok) == EmitSpec(old(View()), stream, bytes, |lent|, now)
      ensures buf == [] || header.stream == 0
    {
      Flush(now);
      if buf != [] {
        discarded := Next(discarded);
        return false;
      }
      OpenPacket(lent, now);
      if buf == [] {
        discarded := Next(discarded);
        return false;
      }
      if offset + |bytes| > |buf| {
        discarded := Next(discarded);
        CommitPacket(now);
        return false;
      }
      PatchedStream(buf, header, stream);
      buf := buf[4 := stream];
      header := header.(stream := stream);
      Written(buf, offset, bytes);
      buf := Put(buf, offset, bytes);
      offset := offset + |bytes|;
      CommitPacket(now);
      return true;
    }
  }

  lemma Written(buf: seq<Byte>, offset: nat, ev: seq<Byte>)
    requires 40 <= offset && offset + |ev| <= |buf|
    ensures Put(buf, offset, ev)[..40] == buf[..40]
    ensures Put(buf, offset, ev)[40..offset + |ev|] == buf[40..offset] + ev
  {
  }

  // ---------------------------------------------------------------------------
  // One call
  // ---------------------------------------------------------------------------

  /** The packet `p` has this body, and its header, as the host reads it, says: this stream, as much
      room as the lent buffer had, its own length, opened and sent at these times, so many discards. */
  ghost predicate Sealed(p: seq<Byte>, stream: Byte, room: nat, begin: U64, end: U64, discarded: U32, body: seq<Byte>) {
    && |p| == 40 + |body| && p[40..] == body && Fix32(p[0..4]) == MAGIC
    && var h := ReadHeader(p);
      && h.stream == stream && h.packetBits == 8 * room && h.contentBits == 8 * |p|
      && h.begin == begin && h.end == end && h.discarded == discarded
  }

  /** `t` has sent one packet more than `before`: the open one, as it was, at time `now`. */
  ghost predicate SentOpen(before: Tracer, sent: seq<seq<Byte>>, now: U64)
    requires before.packet.Some?
  {
    && |sent| > 0 && sent[..|sent| - 1] == before.sent
    && var p := before.packet.value;
      Sealed(sent[|sent| - 1], 0, p.room, p.begin, now, before.discarded, p.body)
  }

  lemma SealedBy(p: Draft, stream: Byte, now: U64, discarded: U32)
    ensures var packet := HeaderBytes(HeaderOf(p, stream, now, discarded)) + p.body;
      Sealed(packet, stream, p.room, p.begin, now, discarded, p.body)
  {
    HeaderRoundTrip(HeaderOf(p, stream, now, discarded), p.body);
  }

  lemma CommitSends(t: Tracer, now: U64)
    requires t.packet.Some?
    ensures var u := Commit(t, 0, now); SentOpen(t, u.sent, now) && u.packet == None && u.discarded == t.discarded
  {
    SealedBy(t.packet.value, 0, now, t.discarded);
    assert Commit(t, 0, now).sent[..|t.sent|] == t.sent;
  }

  /** The open packet has room for `n` bytes more. */
  predicate Fits(t: Tracer, n: nat) {
    t.packet.Some? && 40 + |t.packet.value.body| + n <= t.packet.value.room
  }

  /** An event is taken exactly when the open packet has room for it or a new buffer would have. It
      goes behind the others in the open packet if it fits there; otherwise the open packet is sent
      as it is, and the event begins a new one, opened now. A refusal is counted, nothing else is. */
  lemma EmplaceExact(t: Tracer, ev: seq<Byte>, room: Room, now: U64)
    ensures var (u, ok) := EmplaceSpec(t, ev, room, now);
      && (ok <==> Fits(t, |ev|) || 40 + |ev| <= room)
      && u.discarded == (if ok then t.discarded else Next(t.discarded))
      && (Fits(t, |ev|) ==> u.sent == t.sent && u.packet == Some(t.packet.value.(body := t.packet.value.body + ev)))
      && (!Fits(t, |ev|) ==>
            && (if t.packet.Some? then SentOpen(t, u.sent, now) else u.sent == t.sent)
            && (ok ==> u.packet == Some(Filling(room, now, ev)))
            && (!ok ==> u.packet == if room < 40 then None else Some(Filling(room, now, []))))
  {
    if t.packet.Some? {
      CommitSends(t, now);
    }
    assert [] + ev == ev;
  }

  /** A flush sends the open packet as it is, if it holds anything, and does nothing else. */
  lemma FlushExact(t: Tracer, now: U64)
    ensures var u := FlushSpec(t, now);
      if t.packet.Some? && t.packet.value.body != []
      then SentOpen(t, u.sent, now) && u.packet == None && u.discarded == t.discarded
      else u == t
  {
    if t.packet.Some? {
      CommitSends(t, now);
    }
  }

  /** A stream packet that is sent carries exactly its bytes, after what a flush sends first. */
  lemma EmitExact(t: Tracer, stream: Byte, bytes: seq<Byte>, room: Room, now: U64)
    ensures var (u, ok) := EmitSpec(t, stream, bytes, room, now);
      && (ok <==> 40 + |bytes| <= room && !(t.packet.Some? && t.packet.value.body == []))
      && u.discarded == (if ok then t.discarded else Next(t.discarded))
      && (ok ==>
            && u.packet == None && |u.sent| > 0 && u.sent[..|u.sent| - 1] == FlushSpec(t, now).sent
            && Sealed(u.sent[|u.sent| - 1], stream, room, now, now, t.discarded, bytes))
  {
    var a := FlushSpec(t, now);
    var (u, ok) := EmitSpec(t, stream, bytes, room, now);
    if ok {
      SealedBy(Filling(room, now, bytes), stream, now, t.discarded);
      assert u.sent[..|a.sent|] == a.sent;
    }
  }

  // ---------------------------------------------------------------------------
  // Runs
  // ---------------------------------------------------------------------------

  /** The record written for one traced transition, and what the host should make of it. */
  function Traced(task: U32, handle: U32, state: Byte, reason: Byte, name: seq<Byte>, token: seq<Byte>, now: U64)
    : (e: CoroEvent)
    ensures |e.name| == 8 && |e.token| == 11
  {
    CoroEvent(1, now, task, handle, state, reason, NameField(name, 8), NameField(token, 11))
  }

  function Expected(task: U32, handle: U32, state: Byte, reason: Byte, name: seq<Byte>, token: seq<Byte>, now: U64)
    : CoroEvent
  {
    CoroEvent(1, now, task, handle, state, reason, Shown(name, 8), Shown(token, 11))
  }

  lemma TracedDecodes(task: U32, handle: U32, state: Byte, reason: Byte, name: seq<Byte>, token: seq<Byte>, now: U64)
    ensures ReadEvent(EventBytes(Traced(task, handle, state, reason, name, token, now)))
         == Expected(task, handle, state, reason, name, token, now)
  {
    EventRoundTrip(Traced(task, handle, state, reason, name, token, now));
    NameArrives(name, 8);
    NameArrives(token, 11);
  }

  type StreamId = s: Byte | s != 0 witness 3

  /** Sensor, position, driver and TLP events: 27, 35, 19 and 18 bytes. */
  type ForeignEvent = b: seq<Byte> | |b| == 27 || |b| == 35 || |b| == 19 || |b| == 18 witness Zeros(27)

  datatype Use =
    | Trace(task: U32, handle: U32, state: Byte, reason: Byte, name: seq<Byte>, token: seq<Byte>)
    | Foreign(event: ForeignEvent)
    | Emit(stream: StreamId, bytes: seq<Byte>)
    | Flush

  /** One call, the clock it saw, and the buffer the transport would lend. */
  datatype Call = Call(use: Use, now: U64, room: Room)

  /** An event in a packet: the 38 bytes of a coroutine event, or a foreign one. */
  datatype Record = Coro(bytes: seq<Byte>) | Other(bytes: seq<Byte>)

  datatype System = System(
    tracer: Tracer,
    open: seq<Record>,         // history: the events in the open packet
    packed: seq<seq<Record>>,  // history: the events in each packet sent; none in a stream's own packet
    accepted: seq<CoroEvent>,  // history: the coroutine events whose call succeeded, as the host should see them
    refused: nat)              // history: calls that failed

  /** The history after an event: a packet may have been sent before the event was taken. */
  function Logged(s: System, t: Tracer, ok: bool, r: Record): System {
    var rolled := |t.sent| > |s.tracer.sent|;
    var kept := if rolled then [] else s.open;
    s.(tracer := t, packed := if rolled then s.packed + [s.open] else s.packed,
       open := if ok then kept + [r] else kept, refused := if ok then s.refused else s.refused + 1)
  }

  /** The history after a flush: the open packet was sent if it held anything. */
  function Flushed(s: System, now: U64): System {
    var t := FlushSpec(s.tracer, now);
    if |t.sent| > |s.tracer.sent| then s.(tracer := t, packed := s.packed + [s.open], open := []) else s.(tracer := t)
  }

  function Do(s: System, c: Call): System {
    match c.use
    case Trace(task, handle, state, reason, name, token) =>
      var ev := EventBytes(Traced(task, handle, state, reason, name, token, c.now));
      var (t, ok) := EmplaceSpec(s.tracer, ev, c.room, c.now);
      var r := Logged(s, t, ok, Coro(ev));
      if ok then r.(accepted := s.accepted + [Expected(task, handle, state, reason, name, token, c.now)]) else r
    case Foreign(event) =>
      var (t, ok) := EmplaceSpec(s.tracer, event, c.room, c.now);
      Logged(s, t, ok, Other(event))
    case Emit(stream, bytes) =>
      var (t, ok) := EmitSpec(s.tracer, stream, bytes, c.room, c.now);
      SentFor(Flushed(s, c.now), t, ok)
    case Flush => Flushed(s, c.now)
  }

  function DoAll(s: System, cs: seq<Call>): System
    decreases |cs|
  {
    if cs == [] then s else DoAll(Do(s, cs[0]), cs[1..])
  }

  function Start(): System {
    System(Tracer(None, 0, []), [], [], [], 0)
  }

  // ---------------------------------------------------------------------------
  // What the host makes of a packet
  // ---------------------------------------------------------------------------

  /** The events the host gets out of one packet, and out of all of them. */
  function EventsOf(packet: seq<Byte>): seq<CoroEvent> {
    var r := DecodeSpec(packet);
    if r.Ok? then r.value.events else []
  }

  function Arrived(sent: seq<seq<Byte>>): seq<CoroEvent> {
    if sent == [] then [] else Arrived(sent[..|sent| - 1]) + EventsOf(sent[|sent| - 1])
  }

  function BytesOf(rs: seq<Record>): seq<Byte> {
    if rs == [] then [] else BytesOf(rs[..|rs| - 1]) + rs[|rs| - 1].bytes
  }

  /** The coroutine events among these, as the host should see them. */
  function CoroOf(rs: seq<Record>): seq<CoroEvent> {
    if rs == [] then []
    else
      var r := rs[|rs| - 1];
      CoroOf(rs[..|rs| - 1]) + if r.Coro? && |r.bytes| == 38 then [ReadEvent(r.bytes)] else []
  }

  function CoroOfAll(packed: seq<seq<Record>>): seq<CoroEvent> {
    if packed == [] then [] else CoroOfAll(packed[..|packed| - 1]) + CoroOf(packed[|packed| - 1])
  }

  predicate RightSize(r: Record) {
    var n := |r.bytes|;
    if r.Coro? then n == 38 else n == 27 || n == 35 || n == 19 || n == 18
  }

  predicate WellSized(rs: seq<Record>) {
    forall i :: 0 <= i < |rs| ==> RightSize(rs[i])
  }

  predicate NoForeign(rs: seq<Record>) {
    forall i :: 0 <= i < |rs| ==> rs[i].Coro?
  }

  predicate NoCoro(rs: seq<Record>) {
    forall i :: 0 <= i < |rs| ==> rs[i].Other?
  }

  /** What the host gets out of a coroutine packet with these events. */
  function HostView(rs: seq<Record>): seq<CoroEvent> {
    if |BytesOf(rs)| % 38 == 0 then ReadEvents(BytesOf(rs)) else []
  }

  /** Events that reach the host just as they are: coroutine events only, or none of them in a
      packet that the host rejects. */
  predicate Clean(rs: seq<Record>) {
    NoForeign(rs) || (NoCoro(rs) && |BytesOf(rs)| % 38 != 0)
  }

  function ForeignBytes(rs: seq<Record>): nat {
    if rs == [] then 0
    else ForeignBytes(rs[..|rs| - 1]) + if rs[|rs| - 1].Other? then |rs[|rs| - 1].bytes| else 0
  }

  lemma {:induction false} Sizes(rs: seq<Record>)
    requires WellSized(rs)
    ensures |BytesOf(rs)| == 38 * |CoroOf(rs)| + ForeignBytes(rs)
    decreases |rs|
  {
    if rs != [] {
      Front(rs);
      Sizes(rs[..|rs| - 1]);
    }
  }

  lemma Front(rs: seq<Record>)
    requires rs != [] && WellSized(rs)
    ensures WellSized(rs[..|rs| - 1]) && RightSize(rs[|rs| - 1])
    ensures NoForeign(rs) <==> NoForeign(rs[..|rs| - 1]) && rs[|rs| - 1].Coro?
    ensures NoCoro(rs) <==> NoCoro(rs[..|rs| - 1]) && rs[|rs| - 1].Other?
  {
    var front := rs[..|rs| - 1];
    assert forall i :: 0 <= i < |front| ==> front[i] == rs[i];
  }

  lemma {:induction false} Kinds(rs: seq<Record>)
    requires WellSized(rs)
    ensures NoForeign(rs) <==> ForeignBytes(rs) == 0
    ensures NoCoro(rs) <==> CoroOf(rs) == []
    decreases |rs|
  {
    if rs != [] {
      Front(rs);
      Kinds(rs[..|rs| - 1]);
    }
  }

  lemma {:induction false} CoroutinesOnly(rs: seq<Record>)
    requires WellSized(rs) && NoForeign(rs)
    ensures Whole(BytesOf(rs)) && ReadEvents(BytesOf(rs)) == CoroOf(rs)
  {
    if rs != [] {
      Front(rs);
      CoroutinesOnly(rs[..|rs| - 1]);
      ReadAppended(BytesOf(rs[..|rs| - 1]), rs[|rs| - 1].bytes);
    }
  }

  /** The host gets exactly a packet's coroutine events if, and only if, there is no foreign event
      among them, or no coroutine event and the host rejects the packet. */
  lemma PacketDelivers(rs: seq<Record>)
    requires WellSized(rs)
    ensures HostView(rs) == CoroOf(rs) <==> Clean(rs)
  {
    Sizes(rs);
    Kinds(rs);
    WholeExact(BytesOf(rs));
    if NoForeign(rs) {
      CoroutinesOnly(rs);
    } else {
      DivUnique(|BytesOf(rs)|, 38, |CoroOf(rs)| + ForeignBytes(rs) / 38, ForeignBytes(rs) % 38);
    }
  }

  // ---------------------------------------------------------------------------
  // What every run keeps
  // ---------------------------------------------------------------------------

  /** The packet `p` carries the events `rs` to the host. */
  ghost predicate Carries(p: seq<Byte>, rs: seq<Record>) {
    && |p| >= 40 && WellSized(rs) && EventsOf(p) == HostView(rs)
    && (ReadHeader(p).stream == 0 ==> (DecodeSpec(p).Ok? <==> |BytesOf(rs)| % 38 == 0))
  }

  ghost predicate CarriesAll(sent: seq<seq<Byte>>, packed: seq<seq<Record>>) {
    |sent| == |packed| && forall i :: 0 <= i < |sent| ==> Carries(sent[i], packed[i])
  }

  ghost predicate Holds(t: Tracer, open: seq<Record>) {
    WellSized(open) && if t.packet.None? then open == [] else t.packet.value.body == BytesOf(open)
  }

  /** A 32-bit counter after `n` increments. */
  function Wrapped(n: nat): U32 {
    if n == 0 then 0 else Next(Wrapped(n - 1))
  }

  ghost predicate Inv(s: System) {
    && CarriesAll(s.tracer.sent, s.packed) && Holds(s.tracer, s.open)
    && s.accepted == CoroOfAll(s.packed) + CoroOf(s.open)
    && s.tracer.discarded == Wrapped(s.refused)
  }

  lemma CommitCarries(p: Draft, stream: Byte, now: U64, discarded: U32, rs: seq<Record>)
    requires WellSized(rs) && if stream == 0 then p.body == BytesOf(rs) else rs == []
    ensures Carries(HeaderBytes(HeaderOf(p, stream, now, discarded)) + p.body, rs)
  {
    var h := HeaderOf(p, stream, now, discarded);
    WellFramed(h, p.body);
    HeaderRoundTrip(h, p.body);
  }

  /** Sending the open packet moves its events to the history. */
  lemma CommitKeeps(t: Tracer, stream: Byte, now: U64, packed: seq<seq<Record>>, rs: seq<Record>)
    requires t.packet.Some? && CarriesAll(t.sent, packed) && WellSized(rs)
    requires if stream == 0 then t.packet.value.body == BytesOf(rs) else rs == []
    ensures var u := Commit(t, stream, now);
      && CarriesAll(u.sent, packed + [rs]) && u.packet.None? && |u.sent| == |t.sent| + 1 && u.discarded == t.discarded
  {
    CommitCarries(t.packet.value, stream, now, t.discarded, rs);
  }

  lemma MovedOver(packed: seq<seq<Record>>, rs: seq<Record>)
    ensures CoroOfAll(packed + [rs]) == CoroOfAll(packed) + CoroOf(rs)
  {
    assert (packed + [rs])[..|packed|] == packed;
  }

  lemma OneEvent(rs: seq<Record>, r: Record)
    ensures CoroOf(rs + [r]) == CoroOf(rs) + (if r.Coro? && |r.bytes| == 38 then [ReadEvent(r.bytes)] else [])
    ensures BytesOf(rs + [r]) == BytesOf(rs) + r.bytes
    ensures WellSized(rs) && RightSize(r) ==> WellSized(rs + [r])
  {
    assert (rs + [r])[..|rs|] == rs;
  }

  /** An event put into a packet that has room, or refused. */
  lemma AppendKeeps(t: Tracer, open: seq<Record>, r: Record)
    requires Holds(t, open) && RightSize(r)
    ensures var (u, ok) := Appended(t, r.bytes);
      && Holds(u, if ok then open + [r] else open) && u.sent == t.sent
      && u.discarded == if ok then t.discarded else Next(t.discarded)
  {
    OneEvent(open, r);
  }

  lemma OpenHolds(t: Tracer, room: Room, now: U64)
    requires t.packet.None?
    ensures var u := Opened(t, room, now); Holds(u, []) && u.sent == t.sent && u.discarded == t.discarded
  {
  }

  /** The packet that is open, if any, after room was made for the event. */
  function ReadyFor(t: Tracer, n: nat, room: Room, now: U64): Tracer {
    var a := Rolled(t, n, now);
    if a.packet.None? then Opened(a, room, now) else a
  }

  lemma ReadyKeeps(t: Tracer, n: nat, room: Room, now: U64, packed: seq<seq<Record>>, open: seq<Record>)
    requires CarriesAll(t.sent, packed) && Holds(t, open)
    ensures var u := ReadyFor(t, n, room, now);
      && u.discarded == t.discarded
      && (if |u.sent| > |t.sent| then CarriesAll(u.sent, packed + [open]) && Holds(u, [])
          else CarriesAll(u.sent, packed) && Holds(u, open))
  {
    var a := Rolled(t, n, now);
    if t.packet.Some? && 40 + |t.packet.value.body| + n > t.packet.value.room {
      CommitKeeps(t, 0, now, packed, open);
    }
    if a.packet.None? {
      OpenHolds(a, room, now);
    }
  }

  /** What an event does to the engine: room is made, then it is put in or refused. */
  lemma EmplaceIs(t: Tracer, ev: seq<Byte>, room: Room, now: U64)
    ensures EmplaceSpec(t, ev, room, now) == Appended(ReadyFor(t, |ev|, room, now), ev)
    ensures EmplaceSpec(t, ev, room, now).0.sent == ReadyFor(t, |ev|, room, now).sent
  {
  }

  /** A logged event keeps the history in step with the packets. */
  ghost predicate InStep(u: System, accepted: seq<CoroEvent>) {
    && CarriesAll(u.tracer.sent, u.packed) && Holds(u.tracer, u.open) && u.tracer.discarded == Wrapped(u.refused)
    && CoroOfAll(u.packed) + CoroOf(u.open) == accepted
  }

  /** The engine `v` has made room, its packets are `packed` and its open one is `kept`; the event
      is then put in or refused. */
  lemma LoggedKeeps(u: System, v: Tracer, packed: seq<seq<Record>>, kept: seq<Record>, ok: bool, r: Record,
                    refused: nat, accepted: seq<CoroEvent>)
    requires CarriesAll(v.sent, packed) && Holds(v, kept) && v.discarded == Wrapped(refused)
    requires CoroOfAll(packed) + CoroOf(kept) == accepted && RightSize(r) && (u.tracer, ok) == Appended(v, r.bytes)
    requires u.packed == packed && u.open == (if ok then kept + [r] else kept)
    requires u.refused == if ok then refused else refused + 1
    ensures InStep(u, accepted + (if ok && r.Coro? then [ReadEvent(r.bytes)] else []))
  {
    AppendKeeps(v, kept, r);
    CountsOne(refused);
    if ok {
      Accepts(packed, kept, r, accepted);
    } else {
      assert accepted + [] == accepted;
    }
    SameSent(u.tracer.sent, v.sent, packed);
  }

  lemma SameSent(sent: seq<seq<Byte>>, was: seq<seq<Byte>>, packed: seq<seq<Record>>)
    requires CarriesAll(was, packed) && sent == was
    ensures CarriesAll(sent, packed)
  {
  }

  lemma LoggedIs(s: System, t: Tracer, ok: bool, r: Record, packed: seq<seq<Record>>, kept: seq<Record>)
    requires packed == if |t.sent| > |s.tracer.sent| then s.packed + [s.open] else s.packed
    requires kept == if |t.sent| > |s.tracer.sent| then [] else s.open
    ensures Logged(s, t, ok, r) ==
      s.(tracer := t, packed := packed, open := if ok then kept + [r] else kept,
         refused := if ok then s.refused else s.refused + 1)
  {
  }

  lemma CountsOne(n: nat)
    ensures Wrapped(n + 1) == Next(Wrapped(n))
  {
  }

  /** An event changes the history by its packet and itself only. */
  lemma EmplaceKeeps(s: System, r: Record, room: Room, now: U64)
    requires Inv(s) && RightSize(r)
    ensures var (t, ok) := EmplaceSpec(s.tracer, r.bytes, room, now);
      InStep(Logged(s, t, ok, r), s.accepted + (if ok && r.Coro? then [ReadEvent(r.bytes)] else []))
  {
    var v := ReadyFor(s.tracer, |r.bytes|, room, now);
    var (t, ok) := EmplaceSpec(s.tracer, r.bytes, room, now);
    var rolled := |v.sent| > |s.tracer.sent|;
    var kept, packed := if rolled then [] else s.open, if rolled then s.packed + [s.open] else s.packed;
    EmplaceIs(s.tracer, r.bytes, room, now);
    ReadyKeeps(s.tracer, |r.bytes|, room, now, s.packed, s.open);
    Regrouped(s, kept, rolled);
    LoggedIs(s, t, ok, r, packed, kept);
    LoggedKeeps(Logged(s, t, ok, r), v, packed, kept, ok, r, s.refused, s.accepted);
  }

  lemma Accepts(packed: seq<seq<Record>>, kept: seq<Record>, r: Record, accepted: seq<CoroEvent>)
    requires CoroOfAll(packed) + CoroOf(kept) == accepted && RightSize(r)
    ensures CoroOfAll(packed) + CoroOf(kept + [r]) == accepted + if r.Coro? then [ReadEvent(r.bytes)] else []
    ensures accepted + [] == accepted
  {
    OneEvent(kept, r);
  }

  lemma Regrouped(s: System, kept: seq<Record>, rolled: bool)
    requires s.accepted == CoroOfAll(s.packed) + CoroOf(s.open) && kept == if rolled then [] else s.open
    ensures CoroOfAll(if rolled then s.packed + [s.open] else s.packed) + CoroOf(kept) == s.accepted
  {
    MovedOver(s.packed, s.open);
  }

  lemma TraceKeeps(s: System, c: Call)
    requires Inv(s) && c.use.Trace?
    ensures Inv(Do(s, c))
  {
    var u := c.use;
    TracedDecodes(u.task, u.handle, u.state, u.reason, u.name, u.token, c.now);
    var e := Traced(u.task, u.handle, u.state, u.reason, u.name, u.token, c.now);
    EmplaceKeeps(s, Coro(EventBytes(e)), c.room, c.now);
  }

  lemma ForeignKeeps(s: System, c: Call)
    requires Inv(s) && c.use.Foreign?
    ensures Inv(Do(s, c))
  {
    EmplaceKeeps(s, Other(c.use.event), c.room, c.now);
  }

  lemma FlushKeeps(s: System, now: U64)
    requires Inv(s)
    ensures Inv(Flushed(s, now)) && Flushed(s, now).accepted == s.accepted && Flushed(s, now).refused == s.refused
    ensures Flushed(s, now).tracer.discarded == s.tracer.discarded
  {
    if s.tracer.packet.Some? && s.tracer.packet.value.body != [] {
      CommitKeeps(s.tracer, 0, now, s.packed, s.open);
      MovedOver(s.packed, s.open);
    }
  }

  /** A packet of its own, or only a header if the bytes do not fit. */
  lemma SendKeeps(a: Tracer, stream: StreamId, bytes: seq<Byte>, room: Room, now: U64, packed: seq<seq<Record>>)
    requires a.packet.None? && room >= 40 && CarriesAll(a.sent, packed)
    ensures 40 + |bytes| > room ==> CarriesAll(Commit(Discarding(Opened(a, room, now)), 0, now).sent, packed + [[]])
    ensures 40 + |bytes| <= room ==>
        CarriesAll(Commit(a.(packet := Some(Filling(room, now, bytes))), stream, now).sent, packed + [[]])
  {
    if 40 + |bytes| > room {
      CommitKeeps(Discarding(Opened(a, room, now)), 0, now, packed, []);
    } else {
      CommitKeeps(a.(packet := Some(Filling(room, now, bytes))), stream, now, packed, []);
    }
  }

  /** What is sent for a stream, after the flush. */
  function Sending(a: Tracer, stream: StreamId, bytes: seq<Byte>, room: Room, now: U64): (Tracer, bool) {
    if a.packet.Some? || room < 40 then (Discarding(a), false)
    else if 40 + |bytes| > room then (Commit(Discarding(Opened(a, room, now)), 0, now), false)
    else (Commit(a.(packet := Some(Filling(room, now, bytes))), stream, now), true)
  }

  lemma EmitIs(t: Tracer, stream: StreamId, bytes: seq<Byte>, room: Room, now: U64)
    ensures EmitSpec(t, stream, bytes, room, now) == Sending(FlushSpec(t, now), stream, bytes, room, now)
  {
  }

  lemma SendingKeeps(a: Tracer, stream: StreamId, bytes: seq<Byte>, room: Room, now: U64,
                     packed: seq<seq<Record>>, open: seq<Record>)
    requires CarriesAll(a.sent, packed) && Holds(a, open)
    ensures var (u, ok) := Sending(a, stream, bytes, room, now);
      && CarriesAll(u.sent, if |u.sent| > |a.sent| then packed + [[]] else packed) && Holds(u, open)
      && u.discarded == if ok then a.discarded else Next(a.discarded)
  {
    if a.packet.None? && room >= 40 {
      SendKeeps(a, stream, bytes, room, now, packed);
    }
  }

  /** The history after the stream's own packet, or after a refusal. */
  function SentFor(r: System, u: Tracer, ok: bool): System {
    r.(tracer := u, packed := if |u.sent| > |r.tracer.sent| then r.packed + [[]] else r.packed,
       refused := if ok then r.refused else r.refused + 1)
  }

  lemma SentForKeeps(r: System, u: Tracer, ok: bool)
    requires Inv(r) && Holds(u, r.open)
    requires CarriesAll(u.sent, if |u.sent| > |r.tracer.sent| then r.packed + [[]] else r.packed)
    requires u.discarded == if ok then r.tracer.discarded else Next(r.tracer.discarded)
    ensures Inv(SentFor(r, u, ok))
  {
    NothingMoved(r.packed);
    var v := SentFor(r, u, ok);
    assert v.tracer == u && v.open == r.open && v.accepted == r.accepted;
    assert CoroOfAll(v.packed) == CoroOfAll(r.packed);
    assert u.discarded == Wrapped(v.refused) by {
      assert Wrapped(r.refused + 1) == Next(Wrapped(r.refused));
    }
  }

  lemma NothingMoved(packed: seq<seq<Record>>)
    ensures CoroOfAll(packed + [[]]) == CoroOfAll(packed)
  {
    MovedOver(packed, []);
  }

  lemma EmitKeeps(s: System, c: Call)
    requires Inv(s) && c.use.Emit?
    ensures Inv(Do(s, c))
  {
    FlushKeeps(s, c.now);
    SentAfterFlush(Flushed(s, c.now), c.use.stream, c.use.bytes, c.room, c.now);
    EmitDone(s, c);
  }

  lemma EmitDone(s: System, c: Call)
    requires c.use.Emit?
    ensures var (u, ok) := Sending(FlushSpec(s.tracer, c.now), c.use.stream, c.use.bytes, c.room, c.now);
      Do(s, c) == SentFor(Flushed(s, c.now), u, ok) && Flushed(s, c.now).tracer == FlushSpec(s.tracer, c.now)
  {
    EmitIs(s.tracer, c.use.stream, c.use.bytes, c.room, c.now);
  }

  lemma SentAfterFlush(r: System, stream: StreamId, bytes: seq<Byte>, room: Room, now: U64)
    requires Inv(r)
    ensures var (u, ok) := Sending(r.tracer, stream, bytes, room, now); Inv(SentFor(r, u, ok))
  {
    var (u, ok) := Sending(r.tracer, stream, bytes, room, now);
    SendingKeeps(r.tracer, stream, bytes, room, now, r.packed, r.open);
    SentForKeeps(r, u, ok);
  }

  lemma {:induction false} Wraps(n: nat)
    ensures Wrapped(n) == n % 0x1_0000_0000
  {
    if n > 0 {
      Wraps(n - 1);
    }
  }

  lemma CallKeeps(s: System, c: Call)
    requires Inv(s)
    ensures Inv(Do(s, c))
  {
    if c.use.Trace? {
      TraceKeeps(s, c);
    } else if c.use.Foreign? {
      ForeignKeeps(s, c);
    } else if c.use.Emit? {
      EmitKeeps(s, c);
    } else {
      FlushKeeps(s, c.now);
    }
  }

  lemma {:induction false} RunKeeps(s: System, cs: seq<Call>)
    requires Inv(s)
    ensures Inv(DoAll(s, cs))
    decreases |cs|
  {
    if cs != [] {
      CallKeeps(s, cs[0]);
      RunKeeps(Do(s, cs[0]), cs[1..]);
    }
  }

  // ---------------------------------------------------------------------------
  // When every accepted event arrives
  // ---------------------------------------------------------------------------

  /** In every run of traced transitions, foreign events, stream packets and flushes, whatever
      buffers the transport lends: the accepted coroutine events are those in the packets sent
      and in the open one, in order; the host gets exactly a packet's coroutine events if, and only
      if, the packet is clean; and the discard counter is the number of refused calls. */
  lemma EachPacketDelivers(cs: seq<Call>, i: nat)
    ensures var s := DoAll(Start(), cs);
      && |s.tracer.sent| == |s.packed|
      && s.accepted == CoroOfAll(s.packed) + CoroOf(s.open)
      && s.tracer.discarded == s.refused % 0x1_0000_0000
      && (i < |s.packed| ==> (EventsOf(s.tracer.sent[i]) == CoroOf(s.packed[i]) <==> Clean(s.packed[i])))
  {
    RunKeeps(Start(), cs);
    var s := DoAll(Start(), cs);
    Wraps(s.refused);
    if i < |s.packed| {
      assert Carries(s.tracer.sent[i], s.packed[i]);
      PacketDelivers(s.packed[i]);
    }
  }

  predicate AllClean(packed: seq<seq<Record>>) {
    forall i :: 0 <= i < |packed| ==> Clean(packed[i])
  }

  lemma CarriesFront(sent: seq<seq<Byte>>, packed: seq<seq<Record>>)
    requires sent != [] && CarriesAll(sent, packed) && AllClean(packed)
    ensures var n := |sent| - 1;
      CarriesAll(sent[..n], packed[..n]) && AllClean(packed[..n]) && EventsOf(sent[n]) == CoroOf(packed[n])
  {
    var n := |sent| - 1;
    assert Carries(sent[n], packed[n]) && Clean(packed[n]);
    PacketDelivers(packed[n]);
    forall i | 0 <= i < n
      ensures Carries(sent[..n][i], packed[..n][i])
    {
      assert Carries(sent[i], packed[i]);
    }
  }

  lemma {:induction false} ArrivedAll(sent: seq<seq<Byte>>, packed: seq<seq<Record>>)
    requires CarriesAll(sent, packed) && AllClean(packed)
    ensures Arrived(sent) == CoroOfAll(packed)
    decreases |sent|
  {
    if sent != [] {
      CarriesFront(sent, packed);
      ArrivedAll(sent[..|sent| - 1], packed[..|sent| - 1]);
    }
  }

  /** In every run whose packets are all clean, the events the host gets, followed by those still
      in the open packet, are exactly the accepted ones, each once and in order. */
  lemma EventsArrive(cs: seq<Call>)
    ensures var s := DoAll(Start(), cs);
      AllClean(s.packed) ==> Arrived(s.tracer.sent) + CoroOf(s.open) == s.accepted
  {
    RunKeeps(Start(), cs);
    var s := DoAll(Start(), cs);
    if AllClean(s.packed) {
      ArrivedAll(s.tracer.sent, s.packed);
    }
  }

  lemma {:induction false} NoneForeign(s: System, cs: seq<Call>)
    requires NoForeign(s.open) && (forall i :: 0 <= i < |s.packed| ==> NoForeign(s.packed[i]))
    requires forall k :: 0 <= k < |cs| ==> !cs[k].use.Foreign?
    ensures var t := DoAll(s, cs); NoForeign(t.open) && forall i :: 0 <= i < |t.packed| ==> NoForeign(t.packed[i])
    decreases |cs|
  {
    if cs != [] {
      assert forall k :: 0 <= k < |cs[1..]| ==> cs[1..][k] == cs[k + 1];
      NoneForeign(Do(s, cs[0]), cs[1..]);
    }
  }

  /** Without foreign events every packet is clean and the host accepts every coroutine packet: so a
      flush after any such run leaves nothing behind. */
  lemma FlushDeliversAll(cs: seq<Call>, now: U64)
    requires forall k :: 0 <= k < |cs| ==> !cs[k].use.Foreign?
    ensures var s := DoAll(Start(), cs);
      && Arrived(FlushSpec(s.tracer, now).sent) == s.accepted
      && forall i :: 0 <= i < |s.tracer.sent| ==>
           |s.tracer.sent[i]| >= 40 && (ReadHeader(s.tracer.sent[i]).stream == 0 ==> DecodeSpec(s.tracer.sent[i]).Ok?)
  {
    var s := DoAll(Start(), cs);
    RunKeeps(Start(), cs);
    NoneForeign(Start(), cs);
    forall i | 0 <= i < |s.packed|
      ensures |s.tracer.sent[i]| >= 40
          && (ReadHeader(s.tracer.sent[i]).stream == 0 ==> DecodeSpec(s.tracer.sent[i]).Ok?)
    {
      assert Carries(s.tracer.sent[i], s.packed[i]);
      CoroutinesOnly(s.packed[i]);
      WholeExact(BytesOf(s.packed[i]));
    }
    FlushedAll(s, now);
  }

  lemma FlushedAll(s: System, now: U64)
    requires Inv(s) && NoForeign(s.open) && forall i :: 0 <= i < |s.packed| ==> NoForeign(s.packed[i])
    ensures Arrived(FlushSpec(s.tracer, now).sent) == s.accepted
  {
    var r := Flushed(s, now);
    FlushKeeps(s, now);
    StillClean(s, now);
    ArrivedAll(r.tracer.sent, r.packed);
    assert CoroOfAll(r.packed) + [] == CoroOfAll(r.packed);
  }

  lemma StillClean(s: System, now: U64)
    requires Inv(s) && NoForeign(s.open) && forall i :: 0 <= i < |s.packed| ==> NoForeign(s.packed[i])
    ensures AllClean(Flushed(s, now).packed) && CoroOf(Flushed(s, now).open) == []
  {
    var r := Flushed(s, now);
    forall i | 0 <= i < |r.packed|
      ensures Clean(r.packed[i])
    {
      assert NoForeign(r.packed[i]);
    }
    if r.tracer == s.tracer {
      NoBytesNoEvents(s.open);
    }
  }

  lemma NoBytesNoEvents(rs: seq<Record>)
    requires WellSized(rs) && BytesOf(rs) == []
    ensures CoroOf(rs) == []
  {
    Sizes(rs);
  }

  // ---------------------------------------------------------------------------
  // Runs that go wrong
  // ---------------------------------------------------------------------------

  /** An engine that has just taken the events `open` into its first packet. */
  function Filled(open: seq<Record>, body: seq<Byte>, accepted: seq<CoroEvent>, now: U64): System
    requires 40 + |body| <= 1024
  {
    System(Tracer(Some(Filling(1024, now, body)), 0, []), open, [], accepted, 0)
  }

  lemma FirstTaken(e: seq<Byte>, now: U64)
    requires |e| <= 38
    ensures EmplaceSpec(Start().tracer, e, 1024, now) == (Tracer(Some(Filling(1024, now, e)), 0, []), true)
  {
    assert [] + e == e;
  }

  lemma SecondTaken(s: System, e: seq<Byte>, event: ForeignEvent, now: U64)
    requires |e| <= 38 && s == Filled(s.open, e, s.accepted, now)
    ensures Do(s, Call(Foreign(event), now, 1024)) == Filled(s.open + [Other(event)], e + event, s.accepted, now)
  {
  }

  /** The flush sends the one packet. */
  lemma FlushedOne(s: System, body: seq<Byte>, now: U64)
    requires 0 < |body| <= 100 && s == Filled(s.open, body, s.accepted, now)
    ensures var u := Do(s, Call(Flush, now, 0));
      && u.accepted == s.accepted && u.refused == 0 && u.tracer.packet.None? && |u.tracer.sent| == 1
      && Arrived(u.tracer.sent) == if |body| % 38 == 0 then ReadEvents(body) else []
  {
    var p: Draft := Filling(1024, now, body);
    var packet := HeaderBytes(HeaderOf(p, 0, now, 0)) + body;
    FlushSends(s.tracer, p, now);
    FlushedIs(s, [] + [packet], now);
    OnePacket(packet);
    FramedEvents(HeaderOf(p, 0, now, 0), body);
  }

  lemma FlushedIs(s: System, sent: seq<seq<Byte>>, now: U64)
    requires FlushSpec(s.tracer, now) == Tracer(None, 0, sent) && |sent| == 1 && s.tracer.sent == []
    ensures Do(s, Call(Flush, now, 0)) == System(Tracer(None, 0, sent), [], s.packed + [s.open], s.accepted, s.refused)
  {
  }

  lemma FlushSends(t: Tracer, p: Draft, now: U64)
    requires t == Tracer(Some(p), 0, []) && p.body != []
    ensures FlushSpec(t, now) == Tracer(None, 0, [] + [HeaderBytes(HeaderOf(p, 0, now, 0)) + p.body])
  {
  }

  lemma FramedEvents(h: Header, body: seq<Byte>)
    requires h.stream == 0 && h.contentBits == 8 * (40 + |body|) && h.contentBits <= h.packetBits
    ensures EventsOf(HeaderBytes(h) + body) == if |body| % 38 == 0 then ReadEvents(body) else []
  {
    WellFramed(h, body);
  }

  /** A sensor event after a coroutine event: both calls succeed, but the host rejects the packet
      and the accepted coroutine event never arrives. */
  lemma ForeignRunLoses(task: U32, handle: U32, state: Byte, reason: Byte, name: seq<Byte>, token: seq<Byte>,
                        imu: ForeignEvent, now: U64)
    requires |imu| == 27
    ensures var s := Do(Do(Do(Start(), Call(Trace(task, handle, state, reason, name, token), now, 1024)),
                           Call(Foreign(imu), now, 1024)), Call(Flush, now, 0));
      && s.accepted == [Expected(task, handle, state, reason, name, token, now)] && s.refused == 0
      && s.tracer.packet.None? && |s.tracer.sent| == 1 && Arrived(s.tracer.sent) == []
  {
    var ev := EventBytes(Traced(task, handle, state, reason, name, token, now));
    var s1 := Filled([Coro(ev)], ev, [Expected(task, handle, state, reason, name, token, now)], now);
    TraceTaken(task, handle, state, reason, name, token, now);
    LosesFrom(s1, ev, imu, now);
  }

  lemma LosesFrom(s: System, ev: seq<Byte>, imu: ForeignEvent, now: U64)
    requires |ev| == 38 && |imu| == 27 && s == Filled(s.open, ev, s.accepted, now)
    ensures var u := Do(Do(s, Call(Foreign(imu), now, 1024)), Call(Flush, now, 0));
      && u.accepted == s.accepted && u.refused == 0
      && u.tracer.packet.None? && |u.tracer.sent| == 1 && Arrived(u.tracer.sent) == []
  {
    SecondTaken(s, ev, imu, now);
    var body := ev + imu;
    assert |body| == 65 && 65 % 38 == 27;
    var t := Filled(s.open + [Other(imu)], body, s.accepted, now);
    assert t.open == s.open + [Other(imu)] && t.accepted == s.accepted;
    FlushedOne(t, body, now);
  }

  lemma TraceTaken(task: U32, handle: U32, state: Byte, reason: Byte, name: seq<Byte>, token: seq<Byte>, now: U64)
    ensures var ev := EventBytes(Traced(task, handle, state, reason, name, token, now));
      Do(Start(), Call(Trace(task, handle, state, reason, name, token), now, 1024)) ==
      Filled([Coro(ev)], ev, [Expected(task, handle, state, reason, name, token, now)], now)
  {
    FirstTaken(EventBytes(Traced(task, handle, state, reason, name, token, now)), now);
  }

  /** Two driver events: no coroutine event was traced, but the host reports one. */
  lemma ForeignRunInvents(hal1: ForeignEvent, hal2: ForeignEvent, now: U64)
    requires |hal1| == 19 && |hal2| == 19
    ensures var s := Do(Do(Do(Start(), Call(Foreign(hal1), now, 1024)), Call(Foreign(hal2), now, 1024)),
        Call(Flush, now, 0));
      && s.accepted == [] && s.refused == 0 && |s.tracer.sent| == 1
      && Arrived(s.tracer.sent) == [ReadEvent(hal1 + hal2)]
  {
    var s1, body := Filled([Other(hal1)], hal1, [], now), hal1 + hal2;
    FirstTaken(hal1, now);
    assert Do(Start(), Call(Foreign(hal1), now, 1024)) == s1;
    SecondTaken(s1, hal1, hal2, now);
    FlushedOne(Filled(s1.open + [Other(hal2)], body, [], now), body, now);
    assert body[38..] == [] && body[..38] == body;
  }

  lemma OnePacket(p: seq<Byte>)
    ensures Arrived([] + [p]) == EventsOf(p)
  {
    assert ([] + [p])[..0] == [] && [] + EventsOf(p) == EventsOf(p);
  }

  /** A stream packet is sent exactly when the lent buffer holds it and no packet without events
      is open; such a packet (left behind by an event too big for its buffer) refuses every
      stream packet, whatever the transport offers, until an event sends it off. */
  lemma EmitRefusedExactly(t: Tracer, stream: StreamId, bytes: seq<Byte>, room: Room, now: U64)
    ensures var (u, ok) := EmitSpec(t, stream, bytes, room, now);
      && (ok <==> 40 + |bytes| <= room && !(t.packet.Some? && t.packet.value.body == []))
      && (t.packet.Some? && t.packet.value.body == [] ==> u == Discarding(t))
  {
  }

  /** The drained record streams: a header with the right event id followed by whole records is
      sent and accepted whenever the lent buffer holds it. */
  lemma RecordsAccepted(t: Tracer, stream: Byte, head: seq<Byte>, records: seq<Byte>, room: Room, now: U64)
    requires RecordStream(stream).Some? && FlushSpec(t, now).packet.None? && 40 + |head| + |records| <= room
    requires var (id, size, record) := RecordStream(stream).value;
      |head| == size && head[0] == id && |records| % record == 0
    ensures var (u, ok) := EmitSpec(t, stream, head + records, room, now);
      ok && |u.sent| > 0 && DecodeSpec(u.sent[|u.sent| - 1]).Ok?
      && DecodeSpec(u.sent[|u.sent| - 1]).value.header ==
          Header(stream, room * 8, (40 + |head| + |records|) * 8, now, now, t.discarded)
  {
    var p: Draft := Filling(room, now, head + records);
    WellFramed(HeaderOf(p, stream, now, t.discarded), head + records);
  }

  /** Such a state is reached: an event too big for the first lent buffer leaves a header-only packet
      open, and then no stream packet is sent, whatever buffer the transport would lend. */
  lemma EmitBlockedInARun(bytes: ForeignEvent, small: Room, stream: StreamId, data: seq<Byte>, room: Room, now: U64)
    requires 40 <= small < 40 + |bytes|
    ensures var s := Do(Start(), Call(Foreign(bytes), now, small));
      && s.tracer.packet == Some(Filling(small, now, []))
      && !EmitSpec(s.tracer, stream, data, room, now).1
      && Do(s, Call(Emit(stream, data), now, room)).tracer.packet == s.tracer.packet
  {
    var s := Do(Start(), Call(Foreign(bytes), now, small));
    EmitRefusedExactly(s.tracer, stream, data, room, now);
  }
}
