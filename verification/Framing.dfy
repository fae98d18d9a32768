/**
  * Turning a byte stream into whole messages (crates/usbip-proto/src/io.rs), in both
  * directions: the commands the exporter reads and the replies its client reads.
  */
module Framing {
  import opened Types
  import opened Wire
  import opened Pdu

  const MAX_ISO_PACKETS := 1024

  datatype IoError =
    | UnexpectedEof
    | Invalid(proto: ProtoError)
    | NotACommand(command: u32)
    | NotAReply
    | UnknownSeqnum(seqnum: u32)
    | UnexpectedReply(code: u16)
    | PeerRefused(opStatus: u32)

  datatype IsoDesc = IsoDesc(offset: u32, length: u32, actualLength: u32, status: u32)

  datatype Command = Command(header: Header, data: Bytes, iso: seq<IsoDesc>)

  /** The receiving half of a socket: what has not been read yet. */
  class Stream {
    var rest: Bytes

    constructor (bytes: Bytes)
      ensures rest == bytes
    {
      rest := bytes;
    }

    /** `read_exact`: all of it, or an error with the stream used up. */
    method ReadExact(n: nat) returns (r: Result<Bytes, IoError>)
      modifies this
      ensures n <= |old(rest)| ==> r == Ok(old(rest)[..n]) && rest == old(rest)[n..]
      ensures n > |old(rest)| ==> r == Err(UnexpectedEof) && rest == []
    {
      if n > |rest| {
        rest := [];
        return Err(UnexpectedEof);
      }
      r := Ok(rest[..n]);
      rest := rest[n..];
    }
  }

  function IsoBytes(iso: seq<IsoDesc>): (b: Bytes)
    ensures |b| == 16 * |iso|
  {
    if iso == [] then [] else Words(IsoWords(iso[0])) + IsoBytes(iso[1..])
  }

  function IsoWords(d: IsoDesc): seq<u32> {
    [d.offset, d.length, d.actualLength, d.status]
  }

  function IsoAt(b: Bytes, pos: nat): IsoDesc
    requires pos + 16 <= |b|
  {
    IsoDesc(U32At(b, pos).value, U32At(b, pos + 4).value,
            U32At(b, pos + 8).value, U32At(b, pos + 12).value)
  }

  function IsoListAt(b: Bytes, pos: nat, n: nat): (r: seq<IsoDesc>)
    requires pos + 16 * n <= |b|
    ensures |r| == n
    decreases n
  {
    if n == 0 then [] else [IsoAt(b, pos)] + IsoListAt(b, pos + 16, n - 1)
  }

  /** How much follows a command header, refusing sizes a client has no business asking for. */
  function Trailer(h: Header, maxTransfer: nat): Result<(nat, nat), IoError> {
    match h.body
    case BodyCmdSubmit(c) =>
      if c.transferBufferLength < 0 || c.transferBufferLength > maxTransfer then
        Err(Invalid(TooLarge(c.transferBufferLength, maxTransfer)))
      else if c.IsoCount() > MAX_ISO_PACKETS then
        Err(Invalid(TooLarge(c.numberOfPackets, MAX_ISO_PACKETS)))
      else
        Ok((c.PayloadLen(DirectionOf(h.base.direction)), c.IsoCount()))
    case BodyCmdUnlink(_) => Ok((0, 0))
    case _ => Err(NotACommand(h.base.command))
  }

  function Lift<T>(r: Result<T, ProtoError>): Result<T, IoError> {
    if r.Ok? then Ok(r.value) else Err(Invalid(r.error))
  }

  /** The first command of a byte string and what is left behind it. */
  function FirstCommand(b: Bytes, maxTransfer: nat): (r: Result<(Command, Bytes), IoError>)
    ensures r.Ok? ==> |r.value.1| < |b|
  {
    if |b| < SIZE_CMD_HEADER then Err(UnexpectedEof)
    else
      var header :- Lift(HeaderAt(b[..48]));
      WithTrailer(header, b[48..], maxTransfer)
  }

  function WithTrailer(header: Header, b: Bytes, maxTransfer: nat): (r: Result<(Command, Bytes), IoError>)
    ensures r.Ok? ==> |r.value.1| <= |b|
  {
    var (dataLen, isoCount) :- Trailer(header, maxTransfer);
    var end := dataLen + 16 * isoCount;
    if |b| < end then Err(UnexpectedEof)
    else Ok((Command(header, b[..dataLen], IsoListAt(b[dataLen..end], 0, isoCount)), b[end..]))
  }

  function CommandBytes(c: Command): Bytes
  {
    HeaderBytes(c.header) + c.data + IsoBytes(c.iso)
  }

  /** What a peer may send: a well-typed CMD_* within the limits, with exactly the trailer its header announces. */
  predicate Acceptable(c: Command, maxTransfer: nat) {
    && WellTyped(c.header)
    && match c.header.body
       case BodyCmdSubmit(s) =>
         && 0 <= s.transferBufferLength <= maxTransfer && s.numberOfPackets <= 1024
         && |c.data| == (if c.header.base.direction == 1 then 0 else s.transferBufferLength)
         && |c.iso| == Max(s.numberOfPackets, 0)
       case BodyCmdUnlink(_) => c.data == [] && c.iso == []
       case _ => false
  }

  /** The sizes the reader computes are those. */
  lemma TrailerIsAcceptable(c: Command, maxTransfer: nat)
    ensures Acceptable(c, maxTransfer) <==>
            WellTyped(c.header) && Trailer(c.header, maxTransfer) == Ok((|c.data|, |c.iso|))
  {
  }

  lemma IsoHead(pre: Bytes, d: IsoDesc, rest: Bytes)
    ensures IsoAt(pre + Words(IsoWords(d)) + rest, |pre|) == d
  {
    var ws := IsoWords(d);
    WordFields(pre, ws, rest);
    assert ws[0] == d.offset && ws[1] == d.length && ws[2] == d.actualLength && ws[3] == d.status;
  }

  lemma {:induction false} IsoRoundTrip(iso: seq<IsoDesc>, pre: Bytes)
    ensures IsoListAt(pre + IsoBytes(iso), |pre|, |iso|) == iso
    decreases |iso|
  {
    if iso != [] {
      var head, rest := Words(IsoWords(iso[0])), IsoBytes(iso[1..]);
      assert pre + IsoBytes(iso) == (pre + head) + rest;
      IsoHead(pre, iso[0], rest);
      IsoRoundTrip(iso[1..], pre + head);
      assert iso == [iso[0]] + iso[1..];
    }
  }

  lemma TrailerRoundTrip(c: Command, rest: Bytes, maxTransfer: nat)
    ensures Trailer(c.header, maxTransfer) == Ok((|c.data|, |c.iso|)) <==>
            WithTrailer(c.header, c.data + IsoBytes(c.iso) + rest, maxTransfer) == Ok((c, rest))
  {
    var b := c.data + IsoBytes(c.iso) + rest;
    var t := Trailer(c.header, maxTransfer);
    if t == Ok((|c.data|, |c.iso|)) {
      TrailerSlices(c, rest);
    } else if t.Ok? && t.value.0 + 16 * t.value.1 <= |b| {
      var (dataLen, isoCount) := t.value;
      assert |b[..dataLen]| == dataLen;
      assert |IsoListAt(b[dataLen..dataLen + 16 * isoCount], 0, isoCount)| == isoCount;
    }
  }

  lemma TrailerSlices(c: Command, rest: Bytes)
    ensures var b, dl, end := c.data + IsoBytes(c.iso) + rest, |c.data|, |c.data| + 16 * |c.iso|;
            b[..dl] == c.data && b[end..] == rest && IsoListAt(b[dl..end], 0, |c.iso|) == c.iso
  {
    var b, dl, end := c.data + IsoBytes(c.iso) + rest, |c.data|, |c.data| + 16 * |c.iso|;
    assert b[dl..end] == [] + IsoBytes(c.iso);
    IsoRoundTrip(c.iso, []);
  }

  /** One command comes back, with nothing of the next one consumed, exactly when it is acceptable. */
  lemma CommandRoundTrip(c: Command, rest: Bytes, maxTransfer: nat)
    ensures Acceptable(c, maxTransfer) <==>
            FirstCommand(CommandBytes(c) + rest, maxTransfer) == Ok((c, rest))
  {
    var b := CommandBytes(c) + rest;
    assert b[..48] == HeaderBytes(c.header) + [];
    assert b[48..] == c.data + IsoBytes(c.iso) + rest;
    HeaderRoundTrip(c.header, []);
    TrailerRoundTrip(c, rest, maxTransfer);
    TrailerIsAcceptable(c, maxTransfer);
  }

  /** What a header leads to that is not followed by an acceptable command, whatever stands behind it. */
  lemma CommandRefused(h: Header, rest: Bytes, maxTransfer: nat)
    requires WellTyped(h)
    ensures var r := FirstCommand(HeaderBytes(h) + rest, maxTransfer);
            match h.body
            case BodyCmdSubmit(s) =>
              var size := (if h.base.direction == 1 then 0 else s.transferBufferLength)
                          + 16 * Max(s.numberOfPackets, 0);
              if s.transferBufferLength < 0 || s.transferBufferLength > maxTransfer then
                r == Err(Invalid(TooLarge(s.transferBufferLength, maxTransfer)))
              else if s.numberOfPackets > 1024 then r == Err(Invalid(TooLarge(s.numberOfPackets, 1024)))
              else if |rest| < size then r == Err(UnexpectedEof)
              else r.Ok? && r.value.0.header == h && r.value.1 == rest[size..]
            case BodyCmdUnlink(_) => r == Ok((Command(h, [], []), rest))
            case _ => r == Err(NotACommand(h.base.command))
  {
    HeaderFirst(h, rest, maxTransfer);
  }

  lemma HeaderFirst(h: Header, rest: Bytes, maxTransfer: nat)
    requires WellTyped(h)
    ensures FirstCommand(HeaderBytes(h) + rest, maxTransfer) == WithTrailer(h, rest, maxTransfer)
  {
    var b := HeaderBytes(h) + rest;
    assert b[..48] == HeaderBytes(h) + [] && b[48..] == rest;
    HeaderRoundTrip(h, []);
  }

  function StreamBytes(cs: seq<Command>): Bytes
  {
    if cs == [] then [] else CommandBytes(cs[0]) + StreamBytes(cs[1..])
  }

  /** Reading commands until one cannot be read. */
  function AllCommands(b: Bytes, maxTransfer: nat): (seq<Command>, Bytes)
    decreases |b|
  {
    match FirstCommand(b, maxTransfer)
    case Err(_) => ([], b)
    case Ok((c, rest)) => var (cs, left) := AllCommands(rest, maxTransfer); ([c] + cs, left)
  }

  lemma ReadsOneMore(b: Bytes, c: Command, rest: Bytes, cs: seq<Command>, left: Bytes, maxTransfer: nat)
    requires FirstCommand(b, maxTransfer) == Ok((c, rest)) && AllCommands(rest, maxTransfer) == (cs, left)
    ensures AllCommands(b, maxTransfer) == ([c] + cs, left)
  {
  }

  /** Repeated reads invert encoding over a whole stream, and stop at its last byte. */
  lemma {:induction false} StreamRoundTrip(cs: seq<Command>, left: Bytes, maxTransfer: nat)
    requires forall c :: c in cs ==> Acceptable(c, maxTransfer)
    requires FirstCommand(left, maxTransfer).Err?
    ensures AllCommands(StreamBytes(cs) + left, maxTransfer) == (cs, left)
  {
    if cs == [] {
      assert StreamBytes(cs) + left == left;
    } else {
      var c, first := cs[0], CommandBytes(cs[0]);
      var tail := StreamBytes(cs[1..]) + left;
      assert StreamBytes(cs) + left == first + tail;
      CommandRoundTrip(c, tail, maxTransfer);
      StreamRoundTrip(cs[1..], left, maxTransfer);
      ReadsOneMore(first + tail, c, tail, cs[1..], left, maxTransfer);
      assert cs == [c] + cs[1..];
    }
  }

  /** `read_pdu`. */
  method ReadCommand(s: Stream, maxTransfer: nat) returns (r: Result<Command, IoError>)
    modifies s
    ensures match FirstCommand(old(s.rest), maxTransfer)
            case Ok((c, left)) => r == Ok(c) && s.rest == left
            case Err(e) => r == Err(e)
  {
    var hbuf :- s.ReadExact(SIZE_CMD_HEADER);
    var decoded := Decode(hbuf);
    var header :- Lift(decoded);
    r := ReadTrailer(header, s, maxTransfer);
  }

  method ReadTrailer(header: Header, s: Stream, maxTransfer: nat) returns (r: Result<Command, IoError>)
    modifies s
    ensures match WithTrailer(header, old(s.rest), maxTransfer)
            case Ok((c, left)) => r == Ok(c) && s.rest == left
            case Err(e) => r == Err(e)
  {
    ghost var b := s.rest;
    var lens :- Trailer(header, maxTransfer);
    var (dataLen, isoCount) := lens;
    var data :- s.ReadExact(dataLen);
    var iso: seq<IsoDesc> := [];
    if isoCount > 0 {
      var ibuf :- s.ReadExact(isoCount * SIZE_ISO_DESC);
      assert ibuf == b[dataLen..dataLen + 16 * isoCount];
      iso := ReadIso(ibuf, isoCount);
      assert s.rest == b[dataLen + 16 * isoCount..];
    }
    r := Ok(Command(header, data, iso));
  }

  method ReadIso(ibuf: Bytes, n: nat) returns (iso: seq<IsoDesc>)
    requires |ibuf| == 16 * n
    ensures iso == IsoListAt(ibuf, 0, n)
  {
    iso := [];
    for i := 0 to n
      invariant iso + IsoListAt(ibuf, 16 * i, n - i) == IsoListAt(ibuf, 0, n)
    {
      iso := iso + [IsoAt(ibuf, 16 * i)];
    }
  }

  // ------------------------------------------------------------------ replies

  /** What the exporter posts: `write_ret_submit` with its payload, or `write_ret_unlink`. */
  datatype Reply =
    | RetSubmitted(seqnum: u32, status: i32, actualLength: i32, data: Bytes)
    | RetUnlinked(seqnum: u32, status: i32)

  function ReplyHeader(r: Reply): Header {
    match r
    case RetSubmitted(s, status, actual, _) => RetSubmitHeader(s, RetSubmit(status, actual, 0, 0, 0))
    case RetUnlinked(s, status) => RetUnlinkHeader(s, status)
  }

  function ReplyBytes(r: Reply): Bytes {
    HeaderBytes(ReplyHeader(r)) + (if r.RetSubmitted? then r.data else [])
  }

  function RepliesBytes(rs: seq<Reply>): Bytes {
    if rs == [] then [] else ReplyBytes(rs[0]) + RepliesBytes(rs[1..])
  }

  /** The bytes of a reply: command number, seqnum, status, length, its data, and zeros everywhere else. */
  lemma ReplyLayout(r: Reply)
    ensures var b := ReplyBytes(r);
            && |b| == 48 + (if r.RetSubmitted? then |r.data| else 0)
            && BigEndian(b, 0) == (if r.RetSubmitted? then 3 else 4) && BigEndian(b, 4) == r.seqnum
            && BigEndian(b, 8) == BigEndian(b, 12) == BigEndian(b, 16) == 0
            && BigEndian(b, 20) == r.status % 0x1_0000_0000
            && (r.RetSubmitted? ==>
                  && BigEndian(b, 24) == r.actualLength % 0x1_0000_0000
                  && BigEndian(b, 28) == BigEndian(b, 32) == BigEndian(b, 36) == 0
                  && b[40..48] == Zeros(8) && b[48..] == r.data)
            && (r.RetUnlinked? ==> b[24..] == Zeros(24))
  {
    var h := HeaderBytes(ReplyHeader(r));
    var b := ReplyBytes(r);
    HeaderLayout(ReplyHeader(r));
    assert b[..48] == h;
    forall i | 0 <= i <= 44
      ensures BigEndian(b, i) == BigEndian(h, i)
    {
      assert b[i] == h[i] && b[i + 1] == h[i + 1] && b[i + 2] == h[i + 2] && b[i + 3] == h[i + 3];
    }
    var w := LaterWords(h);
    assert w[0] == BigEndian(h, 20) && w[1] == BigEndian(h, 24) && w[2] == BigEndian(h, 28);
    assert w[3] == BigEndian(h, 32) && w[4] == BigEndian(h, 36);
    if r.RetSubmitted? {
      assert b[40..48] == h[40..] && b[48..] == r.data;
    } else {
      assert b[24..] == h[24..];
    }
  }

  /** The data appended is what a client that remembers the submit's direction will read. */
  predicate InFrame(r: Reply, dirs: map<u32, Direction>, maxTransfer: nat) {
    r.RetSubmitted? ==>
      && r.seqnum in dirs
      && |r.data| == (if dirs[r.seqnum].Out? then 0 else Max(r.actualLength, 0))
      && |r.data| <= maxTransfer
  }

  /** A client's view of one reply: the header, then as many bytes as the submit's direction implies. */
  function FirstReply(b: Bytes, dirs: map<u32, Direction>, maxTransfer: nat): (r: Result<(Reply, Bytes), IoError>)
    ensures r.Ok? ==> |r.value.1| < |b|
  {
    if |b| < SIZE_CMD_HEADER then Err(UnexpectedEof)
    else
      var h :- Lift(HeaderAt(b[..48]));
      match h.body
      case BodyRetUnlink(status) => Ok((RetUnlinked(h.base.seqnum, status), b[48..]))
      case BodyRetSubmit(ret) =>
        if h.base.seqnum !in dirs then Err(UnknownSeqnum(h.base.seqnum))
        else
          var n := ret.PayloadLen(dirs[h.base.seqnum]);
          if n > maxTransfer then Err(Invalid(TooLarge(n, maxTransfer)))
          else if |b| < 48 + n then Err(UnexpectedEof)
          else
            Ok((RetSubmitted(h.base.seqnum, ret.status, ret.actualLength, b[48..48 + n]), b[48 + n..]))
      case _ => Err(NotAReply)
  }

  function AllReplies(b: Bytes, dirs: map<u32, Direction>, maxTransfer: nat): (seq<Reply>, Bytes)
    decreases |b|
  {
    match FirstReply(b, dirs, maxTransfer)
    case Err(_) => ([], b)
    case Ok((r, rest)) => var (rs, left) := AllReplies(rest, dirs, maxTransfer); ([r] + rs, left)
  }

  lemma ReplyRoundTrip(r: Reply, rest: Bytes, dirs: map<u32, Direction>, maxTransfer: nat)
    requires InFrame(r, dirs, maxTransfer)
    ensures FirstReply(ReplyBytes(r) + rest, dirs, maxTransfer) == Ok((r, rest))
  {
    var b := ReplyBytes(r) + rest;
    assert b[..48] == HeaderBytes(ReplyHeader(r)) + [];
    HeaderRoundTrip(ReplyHeader(r), []);
    if r.RetSubmitted? {
      assert b[48..48 + |r.data|] == r.data && b[48 + |r.data|..] == rest;
    } else {
      assert b[48..] == rest;
    }
  }

  /** A stream of in-frame replies is recovered exactly, reply by reply, to its last byte. */
  lemma {:induction false} ReplyStreamRoundTrip(rs: seq<Reply>, dirs: map<u32, Direction>, maxTransfer: nat)
    requires forall r :: r in rs ==> InFrame(r, dirs, maxTransfer)
    ensures AllReplies(RepliesBytes(rs), dirs, maxTransfer) == (rs, [])
  {
    if rs != [] {
      ReplyRoundTrip(rs[0], RepliesBytes(rs[1..]), dirs, maxTransfer);
      ReplyStreamRoundTrip(rs[1..], dirs, maxTransfer);
      assert rs == [rs[0]] + rs[1..];
    }
  }

  /** Framing is lost by a single out-of-frame reply: the client misreads it or what follows. */
  lemma OutOfFrameIsMisread(r: Reply, rest: Bytes, dirs: map<u32, Direction>, maxTransfer: nat)
    requires !InFrame(r, dirs, maxTransfer)
    ensures FirstReply(ReplyBytes(r) + rest, dirs, maxTransfer) != Ok((r, rest))
  {
    var b := ReplyBytes(r) + rest;
    assert b[..48] == HeaderBytes(ReplyHeader(r)) + [];
    HeaderRoundTrip(ReplyHeader(r), []);
  }

  function SubmittedReply(h: Header, data: Bytes): Reply
    requires h.body.BodyRetSubmit?
  {
    RetSubmitted(h.base.seqnum, h.body.ret.status, h.body.ret.actualLength, data)
  }

  /** `read_ret_submit`, with the pending-URB table it consults passed in. */
  method ReadRetSubmit(s: Stream, dirs: map<u32, Direction>, maxTransfer: nat)
    returns (r: Result<(Header, Bytes), IoError>)
    modifies s
    ensures r.Ok? ==> r.value.0.body.BodyRetSubmit?
    ensures r.Ok? ==> FirstReply(old(s.rest), dirs, maxTransfer)
                      == Ok((SubmittedReply(r.value.0, r.value.1), s.rest))
    ensures r.Err? ==> (var first := FirstReply(old(s.rest), dirs, maxTransfer);
                        first.Err? || first.value.0.RetUnlinked?)
  {
    ghost var b := s.rest;
    var hbuf :- s.ReadExact(SIZE_CMD_HEADER);
    var decoded := Decode(hbuf);
    var header :- Lift(decoded);
    if !header.body.BodyRetSubmit? {
      return Err(NotAReply);
    }
    if header.base.seqnum !in dirs {
      return Err(UnknownSeqnum(header.base.seqnum));
    }
    var n := header.body.ret.PayloadLen(dirs[header.base.seqnum]);
    if n > maxTransfer {
      return Err(Invalid(TooLarge(n, maxTransfer)));
    }
    var data :- s.ReadExact(n);
    assert data == b[48..48 + n] && s.rest == b[48 + n..];
    r := Ok((header, data));
  }
}
