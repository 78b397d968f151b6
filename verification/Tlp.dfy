/** The 64-byte TLP: its byte image, the register words and bus transfers carried in its
    payload, and the host's parser of the same bytes. */
module Tlps {
  import opened Prelude
  import opened Bytes

  const MEM_RD: Byte := 0x01
  const MEM_WR: Byte := 0x02
  const CPL_D: Byte := 0x03
  const CONTROL: Byte := 0x01
  const SPI_XFER: U32 := 0x4000_0188
  const I2C_XFER: U32 := 0x4000_0388
  const I2C_USE_REG: Byte := 0x01

  type Payload = p: seq<Byte> | |p| == 40 witness Zeros(40)

  datatype Tlp = Tlp(ty: Byte, flags: Byte, tag: Byte, channel: Byte, address: U32, lengthDw: U16,
                     sequence: U16, timestamp: U64, payload: Payload, crc: U32)

  const Blank: Tlp := Tlp(0, 0, 0, 0, 0, 0, 0, 0, Zeros(40), 0)

  // ---------------------------------------------------------------------------
  // The byte image
  // ---------------------------------------------------------------------------

  /** The object's bytes in memory (packed, little-endian host). */
  function Image(t: Tlp): (s: seq<Byte>)
    ensures |s| == 64
  {
    [t.ty, t.flags, t.tag, t.channel] + LE(t.address, 4) + LE(t.lengthDw, 2) + LE(t.sequence, 2)
    + LE(t.timestamp, 8) + t.payload + LE(t.crc, 4)
  }

  /** The object whose memory holds the bytes `s`. */
  function FromImage(s: seq<Byte>): Tlp
    requires |s| == 64
  {
    Tlp(s[0], s[1], s[2], s[3], Fix32(s[4..8]), Fix16(s[8..10]), Fix16(s[10..12]), Fix64(s[12..20]),
        s[20..60], Fix32(s[60..64]))
  }

  lemma ImageParts(t: Tlp)
    ensures var s := Image(t);
      && s[0..4] == [t.ty, t.flags, t.tag, t.channel]
      && s[4..8] == LE(t.address, 4) && s[8..10] == LE(t.lengthDw, 2) && s[10..12] == LE(t.sequence, 2)
      && s[12..20] == LE(t.timestamp, 8) && s[20..60] == t.payload && s[60..64] == LE(t.crc, 4)
  {
    var s := Image(t);
    assert s[..60] + LE(t.crc, 4) == s;
  }

  /** Every packet survives the way through its bytes ... */
  lemma FieldsRoundTrip(t: Tlp)
    ensures FromImage(Image(t)) == t
  {
    ImageParts(t);
    ReadBacks();
    var s := Image(t);
    assert s[0] == s[0..4][0] && s[1] == s[0..4][1] && s[2] == s[0..4][2] && s[3] == s[0..4][3];
  }

  /** ... and every 64 bytes survive the way through the packet they make. */
  lemma BytesRoundTrip(s: seq<Byte>)
    requires |s| == 64
    ensures Image(FromImage(s)) == s
  {
    WriteBack(s[4..8]); WriteBack(s[8..10]); WriteBack(s[10..12]); WriteBack(s[12..20]); WriteBack(s[60..64]);
    assert s == s[0..4] + s[4..8] + s[8..10] + s[10..12] + s[12..20] + s[20..60] + s[60..64];
    assert s[0..4] == [s[0], s[1], s[2], s[3]];
  }

  /** Byte by byte into a slot of a transport buffer. */
  method TlpStore(dst: array<Byte>, slot: nat, src: array<Byte>)
    requires src.Length == 64 && slot + 64 <= dst.Length && dst != src
    modifies dst
    ensures dst[..] == Put(old(dst[..]), slot, src[..])
  {
    for i := 0 to 64
      invariant forall j :: 0 <= j < i ==> dst[slot + j] == src[j]
      invariant forall j :: 0 <= j < dst.Length && !(slot <= j < slot + i) ==> dst[j] == old(dst[j])
    {
      dst[slot + i] := src[i];
    }
    assert dst[..] == dst[..slot] + dst[slot..slot + 64] + dst[slot + 64..];
    assert dst[..slot] == old(dst[..slot]) && dst[slot + 64..] == old(dst[slot + 64..]);
    assert dst[slot..slot + 64] == src[..];
  }

  /** Byte by byte out of the slot again. */
  method TlpLoad(dst: array<Byte>, src: array<Byte>, slot: nat)
    requires dst.Length == 64 && slot + 64 <= src.Length && dst != src
    modifies dst
    ensures dst[..] == src[slot..slot + 64]
  {
    for i := 0 to 64
      invariant forall j :: 0 <= j < i ==> dst[j] == src[slot + j]
    {
      dst[i] := src[slot + i];
    }
  }

  /** A packet stored in one slot and loaded back, with other packets stored in between in
      slots that do not overlap, is unchanged. */
  lemma SlotsRoundTrip(buffer: seq<Byte>, slot: nat, t: Tlp, other: nat, u: Tlp)
    requires slot + 64 <= |buffer| && other + 64 <= |buffer|
    requires slot + 64 <= other || other + 64 <= slot
    ensures var b := Put(Put(buffer, slot, Image(t)), other, Image(u));
      FromImage(b[slot..slot + 64]) == t && FromImage(b[other..other + 64]) == u
  {
    var a := Put(buffer, slot, Image(t));
    var b := Put(a, other, Image(u));
    assert b[slot..slot + 64] == a[slot..slot + 64];
    FieldsRoundTrip(t);
    FieldsRoundTrip(u);
  }

  // ---------------------------------------------------------------------------
  // The host's parser
  // ---------------------------------------------------------------------------

  datatype HostTlp = HostTlp(ty: Byte, flags: Byte, tag: Byte, channel: Byte, address: U32, lengthDw: U16,
                             sequence: U16, timestamp: U64, payload: seq<Byte>, trailer: seq<Byte>)

  function DecodeTlp(frame: seq<Byte>): Result<HostTlp, nat> {
    if |frame| != 64 then Err(|frame|)
    else Ok(HostTlp(frame[0], frame[1], frame[2], frame[3], Fix32(frame[4..8]), Fix16(frame[8..10]),
                    Fix16(frame[10..12]), Fix64(frame[12..20]), frame[20..20 + 40], frame[60..64]))
  }

  /** The host reads every field the sender stored, and refuses exactly the wrong lengths. */
  lemma HostReadsFields(t: Tlp, frame: seq<Byte>)
    ensures DecodeTlp(Image(t)) ==
      Ok(HostTlp(t.ty, t.flags, t.tag, t.channel, t.address, t.lengthDw, t.sequence, t.timestamp, t.payload,
          LE(t.crc, 4)))
    ensures DecodeTlp(frame).Ok? <==> exists u :: Image(u) == frame
  {
    FieldsRoundTrip(t);
    ImageParts(t);
    if |frame| == 64 {
      BytesRoundTrip(frame);
    }
  }

  /** The whole 64-byte frames of a datagram: one for each start in `range(0, len - 63, 64)`. */
  function SplitTlps(data: seq<Byte>): seq<seq<Byte>> {
    var starts := if |data| < 64 then 0 else (|data| - 63 + 63) / 64;
    seq(starts, i requires 0 <= i < starts => data[64 * i..64 * i + 64])
  }

  function Joined(frames: seq<seq<Byte>>): seq<Byte> {
    if frames == [] then [] else frames[0] + Joined(frames[1..])
  }

  lemma {:induction false} JoinedAt(frames: seq<seq<Byte>>, rest: seq<Byte>, i: nat)
    requires i < |frames| && forall k :: 0 <= k < |frames| ==> |frames[k]| == 64
    ensures |Joined(frames)| == 64 * |frames|
    ensures (Joined(frames) + rest)[64 * i..64 * i + 64] == frames[i]
  {
    JoinedLength(frames);
    var all, tail := Joined(frames) + rest, Joined(frames[1..]) + rest;
    assert all == frames[0] + tail;
    if i > 0 {
      JoinedAt(frames[1..], rest, i - 1);
      assert all[64 * i..64 * i + 64] == tail[64 * (i - 1)..64 * (i - 1) + 64];
    }
  }

  lemma {:induction false} JoinedLength(frames: seq<seq<Byte>>)
    requires forall k :: 0 <= k < |frames| ==> |frames[k]| == 64
    ensures |Joined(frames)| == 64 * |frames|
  {
    if frames != [] {
      JoinedLength(frames[1..]);
    }
  }

  /** Frames sent back to back, with fewer than 64 bytes after them, are split into exactly
      those frames. */
  lemma SplitUndoesJoin(frames: seq<seq<Byte>>, rest: seq<Byte>)
    requires |rest| < 64 && forall k :: 0 <= k < |frames| ==> |frames[k]| == 64
    ensures SplitTlps(Joined(frames) + rest) == frames
  {
    JoinedLength(frames);
    var all := Joined(frames) + rest;
    assert |SplitTlps(all)| == |frames|;
    forall i | 0 <= i < |frames|
      ensures SplitTlps(all)[i] == frames[i]
    {
      JoinedAt(frames, rest, i);
    }
  }

  /** A datagram of packets arrives: splitting and decoding gives the packets sent, in order. */
  lemma DatagramArrives(ts: seq<Tlp>, rest: seq<Byte>, i: nat)
    requires |rest| < 64 && i < |ts|
    ensures var frames := SplitTlps(Joined(seq(|ts|, k requires 0 <= k < |ts| => Image(ts[k]))) + rest);
      |frames| == |ts| && |frames[i]| == 64 && FromImage(frames[i]) == ts[i] && DecodeTlp(frames[i]).Ok?
  {
    var frames := seq(|ts|, k requires 0 <= k < |ts| => Image(ts[k]));
    SplitUndoesJoin(frames, rest);
    FieldsRoundTrip(ts[i]);
  }

  // ---------------------------------------------------------------------------
  // Register words
  // ---------------------------------------------------------------------------

  function PayloadWord(p: Payload, k: nat): U32
    requires k < 10
  {
    var o := 4 * k;
    Quad(p[o], p[o + 1], p[o + 2], p[o + 3])
  }

  function Quad(a: int, b: int, c: int, d: int): int {
    a + 0x100 * b + 0x1_0000 * c + 0x100_0000 * d
  }

  lemma QuadUnique(a: Byte, b: Byte, c: Byte, d: Byte, e: Byte, f: Byte, g: Byte, h: Byte)
    requires Quad(a, b, c, d) == Quad(e, f, g, h)
    ensures a == e && b == f && c == g && d == h
  {
  }

  method SetPayloadWord(p: array<Byte>, k: nat, v: U32)
    requires p.Length == 40 && k < 10
    modifies p
    ensures p[..] == WithWord(old(p[..]), k, v)
  {
    var o := 4 * k;
    p[o] := v % 0x100;
    p[o + 1] := (v / 0x100) % 0x100;
    p[o + 2] := (v / 0x1_0000) % 0x100;
    p[o + 3] := (v / 0x100_0000) % 0x100;
    FourBytes(v);
    ghost var w := WithWord(old(p[..]), k, v);
    assert forall i :: o <= i < o + 4 ==> w[i] == w[o..o + 4][i - o];
    assert forall i :: 0 <= i < 40 ==> p[i] == w[i];
  }

  function WithWord(p: Payload, k: nat, v: U32): Payload
    requires k < 10
  {
    Put(p, 4 * k, LE(v, 4))
  }

  lemma FourBytes(v: U32)
    ensures LE(v, 4) == [v % 0x100, (v / 0x100) % 0x100, (v / 0x1_0000) % 0x100, (v / 0x100_0000) % 0x100]
    ensures v == Quad(LE(v, 4)[0], LE(v, 4)[1], LE(v, 4)[2], LE(v, 4)[3])
  {
    var a, b, c := v / 256, v / 256 / 256, v / 256 / 256 / 256;
    assert LE(v, 4) == [v % 256, a % 256, b % 256, c % 256] by {
      assert LE(c, 1) == [c % 256] && LE(b, 2) == [b % 256] + LE(c, 1);
      assert LE(a, 3) == [a % 256] + LE(b, 2) && LE(v, 4) == [v % 256] + LE(a, 3);
    }
    Quotients(v);
  }

  lemma Quotients(v: U32)
    ensures v / 256 / 256 == v / 0x1_0000 && v / 256 / 256 / 256 == v / 0x100_0000
    ensures v == Quad(v % 256, v / 256 % 256, v / 256 / 256 % 256, v / 256 / 256 / 256 % 256)
  {
  }

  /** A word written reads back; every other word keeps its value. */
  lemma WordReadsBack(p: Payload, k: nat, v: U32, j: nat)
    requires k < 10 && j < 10
    ensures PayloadWord(WithWord(p, k, v), j) == if j == k then v else PayloadWord(p, j)
  {
    var w := WithWord(p, k, v);
    FourBytes(v);
    var o := 4 * k;
    assert forall i :: o <= i < o + 4 ==> w[i] == w[o..o + 4][i - o];
  }

  /** Words written are bytes written: the ten words determine the payload. */
  lemma WordsDetermine(p: Payload, q: Payload)
    ensures p == q <==> forall k :: 0 <= k < 10 ==> PayloadWord(p, k) == PayloadWord(q, k)
  {
    if forall k :: 0 <= k < 10 ==> PayloadWord(p, k) == PayloadWord(q, k) {
      forall i | 0 <= i < 40
        ensures p[i] == q[i]
      {
        var o := 4 * (i / 4);
        assert PayloadWord(p, i / 4) == PayloadWord(q, i / 4);
        QuadUnique(p[o], p[o + 1], p[o + 2], p[o + 3], q[o], q[o + 1], q[o + 2], q[o + 3]);
        assert i == o || i == o + 1 || i == o + 2 || i == o + 3;
      }
    }
  }

  function LengthBytes(t: Tlp): (n: nat)
  {
    var bytes := t.lengthDw * 4;
    if bytes > 40 then 40 else bytes
  }

  /** Up to nine words; the payload after them stays zero. */
  method MakeMemWriteBurst(addr: U32, values: seq<U32>, count: Byte, tag: Byte) returns (t: Tlp)
    requires count <= |values| || 9 <= |values|
    ensures var n := if count > 9 then 9 else count;
      && t == Blank.(ty := MEM_WR, tag := tag, channel := CONTROL, address := addr, lengthDw := n, payload := t.payload)
      && LengthBytes(t) == 4 * n
      && forall k :: 0 <= k < 10 ==> PayloadWord(t.payload, k) == if k < n then values[k] else 0
  {
    var maxCount := if count > 9 then 9 else count;
    var p := new Byte[40](_ => 0);
    var i := 0;
    while i < maxCount
      invariant 0 <= i <= maxCount
      invariant forall k :: 0 <= k < 10 ==> PayloadWord(p[..], k) == if k < i then values[k] else 0
    {
      ghost var before := p[..];
      SetPayloadWord(p, i, values[i]);
      forall k | 0 <= k < 10
        ensures PayloadWord(p[..], k) == if k < i + 1 then values[k] else 0
      {
        WordReadsBack(before, i, values[i], k);
      }
      i := i + 1;
    }
    t := Blank.(ty := MEM_WR, tag := tag, channel := CONTROL, address := addr, lengthDw := maxCount, payload := p[..]);
  }

  // ---------------------------------------------------------------------------
  // Bus transfers
  // ---------------------------------------------------------------------------

  function Fit(n: nat, limit: nat): nat {
    if n > limit then limit else n
  }

  /** A bus header followed by as much of `data` as fits, the rest zero. */
  function Packed(header: seq<Byte>, data: seq<Byte>, n: nat): Payload
    requires n <= |data| && |header| + n <= 40
  {
    header + data[..n] + Zeros(40 - |header| - n)
  }

  function Dwords(header: nat, n: nat): nat {
    header + (n + 3) / 4
  }

  function MakeSpiTransfer(bus: Byte, cs: Byte, tx: seq<Byte>, rxLen: Byte, flags: Byte, tag: Byte, ch: Byte): Tlp {
    var n := Fit(|tx|, 36);
    Blank.(ty := if rxLen > 0 && tx == [] then MEM_RD else MEM_WR, flags := flags, tag := tag, channel := ch,
           address := SPI_XFER, lengthDw := Dwords(1, n), payload := Packed([bus, cs, n, rxLen], tx, n))
  }

  function BusCompletion(addr: U32, tag: Byte, status: Byte, rx: seq<Byte>, us: U16, ns: U64, ch: Byte): Tlp {
    var n := Fit(|rx|, 36);
    Blank.(ty := CPL_D, flags := if status == 0 then 0 else 1, tag := tag, channel := ch, address := addr,
           timestamp := ns, lengthDw := Dwords(1, n), payload := Packed([status, n] + LE(us, 2), rx, n))
  }

  function MakeSpiCpl(tag: Byte, status: Byte, rx: seq<Byte>, us: U16, ns: U64, ch: Byte): Tlp {
    BusCompletion(SPI_XFER, tag, status, rx, us, ns, ch)
  }

  function MakeI2cCpl(tag: Byte, status: Byte, rx: seq<Byte>, us: U16, ns: U64, ch: Byte): Tlp {
    BusCompletion(I2C_XFER, tag, status, rx, us, ns, ch)
  }

  function MakeI2cWriteReg(bus: Byte, slave: Byte, reg: Byte, tx: seq<Byte>, tag: Byte, ch: Byte): Tlp {
    var n := Fit(|tx|, 32);
    Blank.(ty := MEM_WR, flags := I2C_USE_REG, tag := tag, channel := ch, address := I2C_XFER,
           lengthDw := Dwords(2, n), payload := Packed([bus, slave, reg, I2C_USE_REG, n, 0, 0, 0], tx, n))
  }

  function MakeStreamTx(ch: Byte, number: U16, data: seq<Byte>, tag: Byte): Tlp {
    var n := Fit(|data|, 40);
    Blank.(ty := MEM_WR, tag := tag, channel := ch, sequence := number, lengthDw := Dwords(0, n),
           payload := Packed([], data, n))
  }

  // The views, which read the same payload back through its header.

  datatype SpiRequest = SpiRequest(bus: Byte, cs: Byte, rxLen: Byte, tx: seq<Byte>)
  datatype BusReply = BusReply(status: Byte, us: U16, rx: seq<Byte>)
  datatype I2cRequest = I2cRequest(bus: Byte, slave: Byte, reg: Byte, subFlags: Byte, rxLen: Byte, tx: seq<Byte>)

  function SpiRequestView(t: Tlp): SpiRequest {
    var p := t.payload;
    SpiRequest(p[0], p[1], p[3], p[4..4 + Fit(p[2], 36)])
  }

  function BusReplyView(t: Tlp): BusReply {
    var p := t.payload;
    BusReply(p[0], Fix16(p[2..4]), p[4..4 + Fit(p[1], 36)])
  }

  function I2cRequestView(t: Tlp): I2cRequest {
    var p := t.payload;
    I2cRequest(p[0], p[1], p[2], p[3], p[5], p[8..8 + Fit(p[4], 32)])
  }

  /** The header fields that are not the length. */
  predicate Headed(t: Tlp, ty: Byte, flags: Byte, tag: Byte, ch: Byte, address: U32, number: U16, ns: U64) {
    && t.ty == ty && t.flags == flags && t.tag == tag && t.channel == ch && t.address == address
    && t.sequence == number && t.timestamp == ns && t.crc == 0
  }

  lemma PackedParts(header: seq<Byte>, data: seq<Byte>, n: nat)
    requires n <= |data| && |header| + n <= 40
    ensures var p := Packed(header, data, n);
      && p[..|header|] == header && p[|header|..|header| + n] == data[..n]
      && (forall i :: 0 <= i < |header| ==> p[i] == header[i])
      && forall i :: |header| + n <= i < 40 ==> p[i] == 0
  {
  }

  /** The announced length covers header and data, by less than one word too much. */
  lemma LengthCovers(t: Tlp, header: nat, n: nat)
    requires t.lengthDw == Dwords(header, n) && 4 * header + n <= 40
    ensures 4 * header + n <= LengthBytes(t) < 4 * header + n + 4
  {
  }

  /** An SPI request reaches the other side of the wire with every header field as given and the
      view as it was, the data cut to 36 bytes; it is a read exactly when it only receives. */
  lemma SpiRequestArrives(bus: Byte, cs: Byte, tx: seq<Byte>, rxLen: Byte, flags: Byte, tag: Byte, ch: Byte)
    ensures var t := MakeSpiTransfer(bus, cs, tx, rxLen, flags, tag, ch);
      var n := Fit(|tx|, 36);
      var r := FromImage(Image(t));
      && Headed(r, if tx == [] && rxLen > 0 then MEM_RD else MEM_WR, flags, tag, ch, SPI_XFER, 0, 0)
      && SpiRequestView(r) == SpiRequest(bus, cs, rxLen, tx[..n])
      && 4 + n <= LengthBytes(r) < 4 + n + 4
  {
    var t := MakeSpiTransfer(bus, cs, tx, rxLen, flags, tag, ch);
    var n := Fit(|tx|, 36);
    assert FromImage(Image(t)) == t by {
      FieldsRoundTrip(t);
    }
    PackedParts([bus, cs, n, rxLen], tx, n);
    LengthCovers(t, 1, n);
  }

  /** A completion reaches the other side with every header field, its status, duration and the
      first 36 data bytes, and counts as an error exactly when the status says so. */
  lemma CompletionArrives(i2c: bool, tag: Byte, status: Byte, rx: seq<Byte>, us: U16, ns: U64, ch: Byte)
    ensures var t := if i2c then MakeI2cCpl(tag, status, rx, us, ns, ch) else MakeSpiCpl(tag, status, rx, us, ns, ch);
      var n := Fit(|rx|, 36);
      var r := FromImage(Image(t));
      && Headed(r, CPL_D, if status == 0 then 0 else 1, tag, ch, if i2c then I2C_XFER else SPI_XFER, 0, ns)
      && BusReplyView(r) == BusReply(status, us, rx[..n])
      && 4 + n <= LengthBytes(r) < 4 + n + 4
  {
    var t := BusCompletion(if i2c then I2C_XFER else SPI_XFER, tag, status, rx, us, ns, ch);
    var n := Fit(|rx|, 36);
    var h := [status, n] + LE(us, 2);
    assert FromImage(Image(t)) == t by {
      FieldsRoundTrip(t);
    }
    PackedParts(h, rx, n);
    ReadBacks();
    assert t.payload[2..4] == t.payload[..4][2..4] == h[2..4] == LE(us, 2);
    LengthCovers(t, 1, n);
  }

  lemma I2cRequestArrives(bus: Byte, slave: Byte, reg: Byte, tx: seq<Byte>, tag: Byte, ch: Byte)
    ensures var t := MakeI2cWriteReg(bus, slave, reg, tx, tag, ch);
      var n := Fit(|tx|, 32);
      var r := FromImage(Image(t));
      && Headed(r, MEM_WR, I2C_USE_REG, tag, ch, I2C_XFER, 0, 0)
      && I2cRequestView(r) == I2cRequest(bus, slave, reg, I2C_USE_REG, 0, tx[..n])
      && 8 + n <= LengthBytes(r) < 8 + n + 4
  {
    var t := MakeI2cWriteReg(bus, slave, reg, tx, tag, ch);
    var n := Fit(|tx|, 32);
    assert FromImage(Image(t)) == t by {
      FieldsRoundTrip(t);
    }
    PackedParts([bus, slave, reg, I2C_USE_REG, n, 0, 0, 0], tx, n);
    LengthCovers(t, 2, n);
  }

  /** A stream packet has no byte count: what its announced length covers is the data itself
      exactly when the data fits and is a whole number of words; otherwise it is the part that
      fits, filled up with zeros to a word. */
  lemma StreamArrives(ch: Byte, number: U16, data: seq<Byte>, tag: Byte)
    ensures var t := MakeStreamTx(ch, number, data, tag);
      var n := Fit(|data|, 40);
      var r := FromImage(Image(t));
      && Headed(r, MEM_WR, 0, tag, ch, 0, number, 0)
      && n <= LengthBytes(r) < n + 4
      && r.payload[..LengthBytes(r)] == data[..n] + Zeros(LengthBytes(r) - n)
      && (r.payload[..LengthBytes(r)] == data <==> |data| <= 40 && |data| % 4 == 0)
  {
    var t := MakeStreamTx(ch, number, data, tag);
    var n := Fit(|data|, 40);
    assert FromImage(Image(t)) == t by {
      FieldsRoundTrip(t);
    }
    StreamPayload(t, data, n);
  }

  lemma StreamPayload(t: Tlp, data: seq<Byte>, n: nat)
    requires n == Fit(|data|, 40) && t.payload == Packed([], data, n) && t.lengthDw == Dwords(0, n)
    ensures n <= LengthBytes(t) < n + 4
    ensures t.payload[..LengthBytes(t)] == data[..n] + Zeros(LengthBytes(t) - n)
    ensures t.payload[..LengthBytes(t)] == data <==> |data| <= 40 && |data| % 4 == 0
  {
    PackedParts([], data, n);
    LengthCovers(t, 0, n);
  }

  // ---------------------------------------------------------------------------
  // Variable-length messages
  // ---------------------------------------------------------------------------

  function GetPayload(lengthDw: U16, payload: seq<Byte>): seq<Byte> {
    var len := lengthDw * 4;
    payload[..if len > |payload| then |payload| else len]
  }

  function TotalSize(lengthDw: U16): nat {
    20 + lengthDw * 4
  }

  /** The payload never leaves its storage, but the announced total is header plus payload
      only when the length field fits the storage. */
  lemma TotalSizeExact(lengthDw: U16, payload: seq<Byte>)
    ensures GetPayload(lengthDw, payload) <= payload
    ensures TotalSize(lengthDw) == 20 + |GetPayload(lengthDw, payload)| <==> 4 * lengthDw <= |payload|
    ensures TotalSize(lengthDw) >= 20 + |GetPayload(lengthDw, payload)|
  {
  }
}
