/**
  * The 48-byte command headers of USB/IP 1.1.1 (crates/usbip-proto/src/pdu.rs).
  */
module Pdu {
  import opened Types
  import opened Wire

  const SIZE_CMD_HEADER := 48
  const SIZE_ISO_DESC := 16

  const USBIP_CMD_SUBMIT: u32 := 1
  const USBIP_CMD_UNLINK: u32 := 2
  const USBIP_RET_SUBMIT: u32 := 3
  const USBIP_RET_UNLINK: u32 := 4

  datatype Direction = Out | In

  /** Only the value 1 means IN; every other raw value reads as OUT. */
  function DirectionOf(raw: u32): Direction {
    if raw == 1 then In else Out
  }

  datatype BasicHeader = BasicHeader(command: u32, seqnum: u32, devid: u32, direction: u32, ep: u32)

  type Setup = b: Bytes | |b| == 8 witness [0, 0, 0, 0, 0, 0, 0, 0]

  datatype CmdSubmit = CmdSubmit(
    transferFlags: u32, transferBufferLength: i32, startFrame: i32,
    numberOfPackets: i32, interval: i32, setup: Setup)
  {
    function IsoCount(): nat {
      if numberOfPackets > 0 then numberOfPackets else 0
    }

    /** Bytes that follow the header: only OUT submits carry data. */
    function PayloadLen(dir: Direction): nat {
      if dir.In? || transferBufferLength < 0 then 0 else transferBufferLength
    }
  }

  datatype RetSubmit = RetSubmit(
    status: i32, actualLength: i32, startFrame: i32, numberOfPackets: i32, errorCount: i32)
  {
    /** `dir` is the direction of the original submit, which the reply does not repeat. */
    function PayloadLen(dir: Direction): nat {
      if dir.Out? || actualLength < 0 then 0 else actualLength
    }
  }

  datatype Body =
    | BodyCmdSubmit(submit: CmdSubmit)
    | BodyRetSubmit(ret: RetSubmit)
    | BodyCmdUnlink(unlinkSeqnum: u32)
    | BodyRetUnlink(unlinkStatus: i32)

  datatype Header = Header(base: BasicHeader, body: Body)

  function RetSubmitHeader(seqnum: u32, r: RetSubmit): Header {
    Header(BasicHeader(USBIP_RET_SUBMIT, seqnum, 0, 0, 0), BodyRetSubmit(r))
  }

  function RetUnlinkHeader(seqnum: u32, status: i32): Header {
    Header(BasicHeader(USBIP_RET_UNLINK, seqnum, 0, 0, 0), BodyRetUnlink(status))
  }

  function CommandOf(b: Body): u32 {
    match b
    case BodyCmdSubmit(_) => USBIP_CMD_SUBMIT
    case BodyRetSubmit(_) => USBIP_RET_SUBMIT
    case BodyCmdUnlink(_) => USBIP_CMD_UNLINK
    case BodyRetUnlink(_) => USBIP_RET_UNLINK
  }

  /** A header whose command number names its own body. */
  predicate WellTyped(h: Header) {
    h.base.command == CommandOf(h.body)
  }

  function BasicWords(b: BasicHeader): seq<u32> {
    [b.command, b.seqnum, b.devid, b.direction, b.ep]
  }

  function BodyWords(b: Body): seq<u32> {
    match b
    case BodyCmdSubmit(c) =>
      [c.transferFlags, Raw(c.transferBufferLength), Raw(c.startFrame), Raw(c.numberOfPackets), Raw(c.interval)]
    case BodyRetSubmit(r) =>
      [Raw(r.status), Raw(r.actualLength), Raw(r.startFrame), Raw(r.numberOfPackets), Raw(r.errorCount)]
    case BodyCmdUnlink(s) => [s]
    case BodyRetUnlink(s) => [Raw(s)]
  }

  /** What follows the 32-bit fields: the setup packet, or padding up to 48 bytes. */
  function Tail(b: Body): Bytes {
    match b
    case BodyCmdSubmit(c) => c.setup
    case BodyRetSubmit(_) => Zeros(8)
    case _ => Zeros(24)
  }

  function HeaderBytes(h: Header): (r: Bytes)
    ensures |r| == SIZE_CMD_HEADER
  {
    Words(BasicWords(h.base) + BodyWords(h.body)) + Tail(h.body)
  }

  /** Four bytes, most significant first. */
  function BigEndian(b: Bytes, i: nat): nat
    requires i + 4 <= |b|
  {
    b[i] as int * 0x100_0000 + b[i + 1] as int * 0x1_0000 + b[i + 2] as int * 0x100 + b[i + 3] as int
  }

  lemma WordIsBigEndian(pre: Bytes, v: u32, post: Bytes)
    ensures BigEndian(pre + U32Bytes(v) + post, |pre|) == v
  {
    var b := pre + U32Bytes(v) + post;
    assert b[|pre|] == U32Bytes(v)[0] && b[|pre| + 1] == U32Bytes(v)[1];
    assert b[|pre| + 2] == U32Bytes(v)[2] && b[|pre| + 3] == U32Bytes(v)[3];
  }

  lemma {:induction false} WordsAreBigEndian(pre: Bytes, ws: seq<u32>, post: Bytes, k: nat)
    requires k < |ws|
    ensures BigEndian(pre + Words(ws) + post, |pre| + 4 * k) == ws[k]
    decreases k
  {
    var b, first := pre + Words(ws) + post, U32Bytes(ws[0]);
    assert b == pre + first + (Words(ws[1..]) + post) == (pre + first) + Words(ws[1..]) + post;
    if k == 0 {
      WordIsBigEndian(pre, ws[0], Words(ws[1..]) + post);
    } else {
      WordsAreBigEndian(pre + first, ws[1..], post, k - 1);
    }
  }

  /** The five words after the basic header. */
  function LaterWords(b: Bytes): (w: seq<nat>)
    requires |b| == 48
    ensures |w| == 5
  {
    [BigEndian(b, 20), BigEndian(b, 24), BigEndian(b, 28), BigEndian(b, 32), BigEndian(b, 36)]
  }

  /** A body's fields where USB/IP 1.1.1 has them, two's complement, the rest of the 48 bytes zero. */
  predicate BodyLaidOut(body: Body, w: seq<nat>, b: Bytes)
    requires |w| == 5 && |b| == 48
  {
    match body
    case BodyCmdSubmit(c) =>
      && w[0] == c.transferFlags && w[1] == c.transferBufferLength % 0x1_0000_0000
      && w[2] == c.startFrame % 0x1_0000_0000 && w[3] == c.numberOfPackets % 0x1_0000_0000
      && w[4] == c.interval % 0x1_0000_0000 && b[40..] == c.setup
    case BodyRetSubmit(r) =>
      && w[0] == r.status % 0x1_0000_0000 && w[1] == r.actualLength % 0x1_0000_0000
      && w[2] == r.startFrame % 0x1_0000_0000 && w[3] == r.numberOfPackets % 0x1_0000_0000
      && w[4] == r.errorCount % 0x1_0000_0000 && b[40..] == Zeros(8)
    case BodyCmdUnlink(s) => w[0] == s && b[24..] == Zeros(24)
    case BodyRetUnlink(s) => w[0] == s % 0x1_0000_0000 && b[24..] == Zeros(24)
  }

  /** The 48 bytes of a header, field by field. */
  lemma HeaderLayout(h: Header)
    ensures var b := HeaderBytes(h);
            && BigEndian(b, 0) == h.base.command && BigEndian(b, 4) == h.base.seqnum && BigEndian(b, 8) == h.base.devid
            && BigEndian(b, 12) == h.base.direction && BigEndian(b, 16) == h.base.ep
            && BodyLaidOut(h.body, LaterWords(b), b)
    ensures WellTyped(h) <==>
            h.base.command == match h.body
                              case BodyCmdSubmit(_) => 1
                              case BodyCmdUnlink(_) => 2
                              case BodyRetSubmit(_) => 3
                              case BodyRetUnlink(_) => 4
  {
    var ws, tail := BasicWords(h.base) + BodyWords(h.body), Tail(h.body);
    var b := HeaderBytes(h);
    assert b == [] + Words(ws) + tail;
    forall k {:trigger ws[k]} | 0 <= k < |ws|
      ensures BigEndian(b, 4 * k) == ws[k]
    {
      WordsAreBigEndian([], ws, tail, k);
    }
    assert ws[0] == h.base.command && ws[1] == h.base.seqnum && ws[2] == h.base.devid;
    assert ws[3] == h.base.direction && ws[4] == h.base.ep;
    BodyIsLaidOut(h.body, ws, b);
  }

  lemma BodyIsLaidOut(body: Body, ws: seq<u32>, b: Bytes)
    requires |ws| == 5 + |BodyWords(body)| && ws[5..] == BodyWords(body)
    requires |b| == 48 && b[4 * |ws|..] == Tail(body)
    requires forall k {:trigger ws[k]} :: 0 <= k < |ws| ==> BigEndian(b, 4 * k) == ws[k]
    ensures BodyLaidOut(body, LaterWords(b), b)
  {
    var w := LaterWords(b);
    assert w[0] == ws[5] == ws[5..][0];
    if |ws| == 10 {
      assert w[1] == ws[6] == ws[5..][1] && w[2] == ws[7] == ws[5..][2];
      assert w[3] == ws[8] == ws[5..][3] && w[4] == ws[9] == ws[5..][4];
    }
    LaidOutAs(body, w, b);
  }

  lemma LaidOutAs(body: Body, w: seq<nat>, b: Bytes)
    requires |w| == 5 && |b| == 48 && forall k :: 0 <= k < |BodyWords(body)| ==> w[k] == BodyWords(body)[k]
    requires b[20 + 4 * |BodyWords(body)|..] == Tail(body)
    ensures BodyLaidOut(body, w, b)
  {
  }

  /** A first word that is no command is refused by its number. */
  lemma UnknownCommandRefused(b: Bytes)
    requires |b| >= 20 && !(1 <= BigEndian(b, 0) <= 4)
    ensures HeaderAt(b) == Err(BadCommand(BigEndian(b, 0)))
  {
    assert b[0..4] == b[..4];
  }

  function BasicAt(b: Bytes): Result<BasicHeader, ProtoError> {
    var command :- U32At(b, 0);
    var seqnum :- U32At(b, 4);
    var devid :- U32At(b, 8);
    var direction :- U32At(b, 12);
    var ep :- U32At(b, 16);
    Ok(BasicHeader(command, seqnum, devid, direction, ep))
  }

  function BodyAt(command: u32, b: Bytes): (r: Result<Body, ProtoError>)
    requires |b| >= 20
    ensures r.Ok? ==> CommandOf(r.value) == command
  {
    if command == USBIP_CMD_SUBMIT then
      var flags :- U32At(b, 20);
      var length :- I32At(b, 24);
      var frame :- I32At(b, 28);
      var packets :- I32At(b, 32);
      var interval :- I32At(b, 36);
      var setup :- BytesAt(b, 40, 8);
      Ok(BodyCmdSubmit(CmdSubmit(flags, length, frame, packets, interval, setup)))
    else if command == USBIP_RET_SUBMIT then
      var status :- I32At(b, 20);
      var actual :- I32At(b, 24);
      var frame :- I32At(b, 28);
      var packets :- I32At(b, 32);
      var errors :- I32At(b, 36);
      var _ :- BytesAt(b, 40, 8);
      Ok(BodyRetSubmit(RetSubmit(status, actual, frame, packets, errors)))
    else if command == USBIP_CMD_UNLINK then
      var seqnum :- U32At(b, 20);
      var _ :- BytesAt(b, 24, 24);
      Ok(BodyCmdUnlink(seqnum))
    else if command == USBIP_RET_UNLINK then
      var status :- I32At(b, 20);
      var _ :- BytesAt(b, 24, 24);
      Ok(BodyRetUnlink(status))
    else
      Err(BadCommand(command))
  }

  function HeaderAt(b: Bytes): (r: Result<Header, ProtoError>)
    ensures r.Ok? ==> WellTyped(r.value)
  {
    var base :- BasicAt(b);
    var body :- BodyAt(base.command, b);
    Ok(Header(base, body))
  }

  /** Decoding inverts encoding exactly on headers whose command number matches their body. */
  lemma HeaderRoundTrip(h: Header, rest: Bytes)
    ensures HeaderAt(HeaderBytes(h) + rest) == Ok(h) <==> WellTyped(h)
  {
    var ws := BasicWords(h.base) + BodyWords(h.body);
    var b := HeaderBytes(h) + rest;
    assert b == [] + Words(ws) + (Tail(h.body) + rest);
    WordFields([], ws, Tail(h.body) + rest);
    assert ws[0] == h.base.command && ws[1] == h.base.seqnum && ws[2] == h.base.devid;
    assert ws[3] == h.base.direction && ws[4] == h.base.ep;
    assert BasicAt(b) == Ok(h.base);
    if WellTyped(h) {
      BodyRoundTrip(h.body, ws, b);
    }
  }

  lemma BodyRoundTrip(body: Body, ws: seq<u32>, b: Bytes)
    requires |ws| == 5 + |BodyWords(body)| && ws[5..] == BodyWords(body)
    requires |b| >= 48 && b[4 * |ws|..48] == Tail(body)
    requires forall k {:trigger ws[k]} :: 0 <= k < |ws| ==> U32At(b, 4 * k) == Ok(ws[k])
    ensures BodyAt(CommandOf(body), b) == Ok(body)
  {
    assert ws[5] == ws[5..][0];
    if |ws| == 10 {
      assert ws[6] == ws[5..][1] && ws[7] == ws[5..][2] && ws[8] == ws[5..][3] && ws[9] == ws[5..][4];
    }
  }

  /** `Header::decode`, moving a cursor through the buffer. */
  method Decode(b: Bytes) returns (r: Result<Header, ProtoError>)
    ensures r == HeaderAt(b)
  {
    var rd := new Reader(b);
    var command :- rd.U32();
    var seqnum :- rd.U32();
    var devid :- rd.U32();
    var direction :- rd.U32();
    var ep :- rd.U32();
    var body :- DecodeBody(command, rd);
    r := Ok(Header(BasicHeader(command, seqnum, devid, direction, ep), body));
  }

  method DecodeBody(command: u32, rd: Reader) returns (r: Result<Body, ProtoError>)
    requires rd.Valid() && rd.pos == 20
    modifies rd
    ensures r == BodyAt(command, rd.buf)
  {
    if command == USBIP_CMD_SUBMIT {
      var flags :- rd.U32();
      var length :- rd.I32();
      var frame :- rd.I32();
      var packets :- rd.I32();
      var interval :- rd.I32();
      var setup :- rd.Take(8);
      r := Ok(BodyCmdSubmit(CmdSubmit(flags, length, frame, packets, interval, setup)));
    } else if command == USBIP_RET_SUBMIT {
      var status :- rd.I32();
      var actual :- rd.I32();
      var frame :- rd.I32();
      var packets :- rd.I32();
      var errors :- rd.I32();
      var _ :- rd.Take(8);
      r := Ok(BodyRetSubmit(RetSubmit(status, actual, frame, packets, errors)));
    } else if command == USBIP_CMD_UNLINK {
      var seqnum :- rd.U32();
      var _ :- rd.Take(24);
      r := Ok(BodyCmdUnlink(seqnum));
    } else if command == USBIP_RET_UNLINK {
      var status :- rd.I32();
      var _ :- rd.Take(24);
      r := Ok(BodyRetUnlink(status));
    } else {
      r := Err(BadCommand(command));
    }
  }
}
