/**
  * Device records and the device list (crates/usbip-proto/src/device.rs, op.rs, and the
  * list reader of io.rs). Strings are their UTF-8 bytes.
  */
module Devlist {
  import opened Types
  import opened Wire
  import opened Pdu
  import opened Framing

  const PATH_LEN := 256
  const BUSID_LEN := 32
  const SIZE_USB_DEVICE := 312
  const MAX_DEVLIST := 1024

  const USBIP_VERSION: u16 := 0x0111
  const OP_REP_DEVLIST: u16 := 0x0005
  const OP_REP_IMPORT: u16 := 0x0003
  const ST_OK: u32 := 0
  const ST_NA: u32 := 1

  datatype UsbInterface = UsbInterface(class_: u8, subclass: u8, protocol: u8)

  const DEFAULT_INTERFACE := UsbInterface(0, 0, 0)

  datatype UsbDevice = UsbDevice(
    path: Bytes, busid: Bytes, busnum: u32, devnum: u32, speed: u32,
    idVendor: u16, idProduct: u16, bcdDevice: u16,
    deviceClass: u8, deviceSubClass: u8, deviceProtocol: u8,
    configurationValue: u8, numConfigurations: u8, numInterfaces: u8,
    interfaces: seq<UsbInterface>)

  // ----------------------------------------------------------------- encoding

  /** Everything in the fixed record after the two text fields. */
  function TailBytes(d: UsbDevice): (b: Bytes)
    ensures |b| == 24
  {
    U32Bytes(d.busnum) + U32Bytes(d.devnum) + U32Bytes(d.speed)
    + U16Bytes(d.idVendor) + U16Bytes(d.idProduct) + U16Bytes(d.bcdDevice)
    + [d.deviceClass, d.deviceSubClass, d.deviceProtocol,
       d.configurationValue, d.numConfigurations, d.numInterfaces]
  }

  function RecordBytes(d: UsbDevice): (b: Bytes)
    ensures |b| == SIZE_USB_DEVICE
  {
    TextBytes(d.path, PATH_LEN) + TextBytes(d.busid, BUSID_LEN) + TailBytes(d)
  }

  /** A missing interface is sent as zeros, so the ifs always has the announced length. */
  function InterfaceBytes(xs: seq<UsbInterface>, i: nat): (b: Bytes)
    ensures |b| == 4
  {
    var x := if i < |xs| then xs[i] else DEFAULT_INTERFACE;
    [x.class_, x.subclass, x.protocol, 0]
  }

  function InterfaceArray(xs: seq<UsbInterface>, from: nat, n: nat): (b: Bytes)
    ensures |b| == 4 * n
    decreases n
  {
    if n == 0 then [] else InterfaceBytes(xs, from) + InterfaceArray(xs, from + 1, n - 1)
  }

  function DeviceBytes(d: UsbDevice, withInterfaces: bool): (b: Bytes)
    ensures |b| == SIZE_USB_DEVICE + if withInterfaces then 4 * d.numInterfaces else 0
  {
    RecordBytes(d) + if withInterfaces then InterfaceArray(d.interfaces, 0, d.numInterfaces) else []
  }

  function DevicesBytes(ds: seq<UsbDevice>): Bytes {
    if ds == [] then [] else DeviceBytes(ds[0], true) + DevicesBytes(ds[1..])
  }

  function OpHeaderBytes(code: u16, status: u32): (b: Bytes)
    ensures |b| == 8
  {
    U16Bytes(USBIP_VERSION) + U16Bytes(code) + U32Bytes(status)
  }

  /** Most significant byte first: version 1.1.1, then the code, then the status. */
  lemma OpHeaderIsBigEndian(code: u16, status: u32)
    ensures var b := OpHeaderBytes(code, status);
            && b[..2] == [0x01, 0x11] && b[2] as int * 0x100 + b[3] as int == code
            && b[4] as int * 0x100_0000 + b[5] as int * 0x1_0000 + b[6] as int * 0x100 + b[7] as int == status
  {
    var b := OpHeaderBytes(code, status);
    assert b[..2] == U16Bytes(USBIP_VERSION) && b[2..4] == U16Bytes(code) && b[4..8] == U32Bytes(status);
    assert b[2] == b[2..4][0] && b[3] == b[2..4][1];
    assert b[4] == b[4..8][0] && b[5] == b[4..8][1] && b[6] == b[4..8][2] && b[7] == b[4..8][3];
  }

  /** `devs.len() as u32`. */
  function CountBytes(ds: seq<UsbDevice>): (b: Bytes)
    ensures |ds| < 0x1_0000_0000 ==> b == U32Bytes(|ds|)
  {
    U32Bytes(|ds| % 0x1_0000_0000)
  }

  function ListBody(ds: seq<UsbDevice>): Bytes {
    CountBytes(ds) + DevicesBytes(ds)
  }

  /** Length of a record with its interface array. */
  function Extent(interfaces: u8): nat {
    SIZE_USB_DEVICE + interfaces as int * 4
  }

  // ----------------------------------------------------------------- decoding

  // Each of these reads from the start of `b`, which is what a cursor has left.

  function InterfacesOf(b: Bytes, n: nat): (r: Result<seq<UsbInterface>, ProtoError>)
    ensures r.Ok? <==> 4 * n <= |b|
    ensures r.Ok? ==> |r.value| == n
    decreases n
  {
    if n == 0 then Ok([])
    else if |b| < 4 then Err(Truncated(1, 0))
    else
      var rest :- InterfacesOf(b[4..], n - 1);
      Ok([UsbInterface(b[0], b[1], b[2])] + rest)
  }

  /** A device with no interfaces yet, from its two strings and the 24 bytes after them. */
  function Assemble(path: Bytes, busid: Bytes, t: Bytes): UsbDevice
    requires |t| == 24
  {
    UsbDevice(path, busid, Word32(t[0..4]), Word32(t[4..8]), Word32(t[8..12]),
              Word16(t[12..14]), Word16(t[14..16]), Word16(t[16..18]),
              t[18], t[19], t[20], t[21], t[22], t[23], [])
  }

  /** The error of the first field that a cut-off record is too short for. */
  function ShortRecord(b: Bytes): ProtoError
    requires |b| < SIZE_USB_DEVICE
  {
    if TextAt(b, 0, PATH_LEN).Err? then TextAt(b, 0, PATH_LEN).error
    else if TextAt(b, 256, BUSID_LEN).Err? then TextAt(b, 256, BUSID_LEN).error
    else ShortNumbers(|b| - 288)
  }

  function RecordOf(b: Bytes): (r: Result<UsbDevice, ProtoError>)
    ensures r.Ok? ==> SIZE_USB_DEVICE <= |b| && r.value.interfaces == [] && r.value.numInterfaces == b[311]
  {
    if |b| < SIZE_USB_DEVICE then Err(ShortRecord(b))
    else
      var path :- TextAt(b, 0, PATH_LEN);
      var busid :- TextAt(b, 256, BUSID_LEN);
      Ok(Assemble(path, busid, b[288..312]))
  }

  function DeviceOf(b: Bytes, withInterfaces: bool): (r: Result<UsbDevice, ProtoError>)
    ensures r.Ok? ==> SIZE_USB_DEVICE <= |b| && r.value.numInterfaces == b[311]
    ensures r.Ok? && withInterfaces ==> |r.value.interfaces| == b[311] && Extent(b[311]) <= |b|
  {
    var d :- RecordOf(b);
    if !withInterfaces then Ok(d)
    else
      var xs :- InterfacesOf(b[SIZE_USB_DEVICE..], d.numInterfaces);
      Ok(d.(interfaces := xs))
  }

  function DevicesOf(b: Bytes, n: nat): (r: Result<seq<UsbDevice>, ProtoError>)
    ensures r.Ok? ==> |r.value| == n
    decreases n
  {
    if n == 0 then Ok([])
    else
      var d :- DeviceOf(b, true);
      var rest :- DevicesOf(b[Extent(d.numInterfaces)..], n - 1);
      Ok([d] + rest)
  }

  /** What `decode_devlist_reply_body` makes of a body. */
  function ListOf(b: Bytes): (r: Result<seq<UsbDevice>, ProtoError>)
    ensures r.Ok? ==> |r.value| <= MAX_DEVLIST
  {
    var n :- U32At(b, 0);
    if n > MAX_DEVLIST then Err(TooLarge(n, MAX_DEVLIST)) else DevicesOf(b[4..], n)
  }

  /** The streaming reader sizes a buffer from the record's last byte before decoding any of it. */
  function StreamedDevice(b: Bytes): (r: Result<UsbDevice, IoError>)
    ensures r.Ok? ==> SIZE_USB_DEVICE <= |b| && Extent(b[311]) <= |b| && r.value.numInterfaces == b[311]
  {
    if |b| < SIZE_USB_DEVICE || |b| < Extent(b[311]) then Err(UnexpectedEof)
    else Lift(DeviceOf(b[..Extent(b[311])], true))
  }

  function StreamedDevices(b: Bytes, n: nat): (r: Result<(seq<UsbDevice>, Bytes), IoError>)
    ensures r.Ok? ==> |r.value.0| == n
    decreases n
  {
    if n == 0 then Ok(([], b))
    else
      var d :- StreamedDevice(b);
      var (rest, left) :- StreamedDevices(b[Extent(d.numInterfaces)..], n - 1);
      Ok(([d] + rest, left))
  }

  function StreamedList(b: Bytes): Result<(seq<UsbDevice>, Bytes), IoError> {
    if |b| < 4 then Err(UnexpectedEof)
    else
      var n := Word32(b[..4]);
      if n > MAX_DEVLIST then Err(Invalid(TooLarge(n, MAX_DEVLIST))) else StreamedDevices(b[4..], n)
  }

  // ------------------------------------------------------------ reply headers

  datatype OpHeader = OpHeader(version: u16, code: u16, status: u32)

  function OpHeaderAt(b: Bytes): Result<OpHeader, ProtoError> {
    var version :- U16At(b, 0);
    var code :- U16At(b, 2);
    var status :- U32At(b, 4);
    Ok(OpHeader(version, code, status))
  }

  /** Why a reply header is not the go-ahead for what was asked, if it is not. */
  function ReplyError(h: OpHeader, code: u16): Option<IoError> {
    if h.version != USBIP_VERSION then Some(Invalid(BadVersion(h.version)))
    else if h.code != code then Some(UnexpectedReply(h.code))
    else if h.status != ST_OK then Some(PeerRefused(h.status))
    else None
  }

  /** What follows the header of a reply that is the go-ahead. */
  function ReplyBody(b: Bytes, code: u16): (r: Result<Bytes, IoError>)
    ensures r.Ok? ==> |b| >= 8 && r.value == b[8..]
  {
    if |b| < 8 then Err(UnexpectedEof)
    else
      var h :- Lift(OpHeaderAt(b[..8]));
      match ReplyError(h, code)
      case Some(e) => Err(e)
      case None => Ok(b[8..])
  }

  /** A whole `OP_REP_DEVLIST`, and what follows it. */
  function DevlistReply(b: Bytes): Result<(seq<UsbDevice>, Bytes), IoError> {
    var body :- ReplyBody(b, OP_REP_DEVLIST);
    StreamedList(body)
  }

  /** A whole `OP_REP_IMPORT`, and what follows it. */
  function ImportReply(b: Bytes): Result<(UsbDevice, Bytes), IoError> {
    var body :- ReplyBody(b, OP_REP_IMPORT);
    if |body| < SIZE_USB_DEVICE then Err(UnexpectedEof)
    else
      var d :- Lift(DeviceOf(body[..SIZE_USB_DEVICE], false));
      Ok((d, body[SIZE_USB_DEVICE..]))
  }

  /** The reply to an import: the device's record, or a refusal with nothing behind it. */
  function ImportReplyBytes(d: Option<UsbDevice>): Bytes {
    match d
    case Some(x) => OpHeaderBytes(OP_REP_IMPORT, ST_OK) + DeviceBytes(x, false)
    case None => OpHeaderBytes(OP_REP_IMPORT, ST_NA)
  }

  // --------------------------------------------------- the two readers agree

  /** A record is read from its own bytes and from nothing behind them. */
  lemma RecordIsLocal(b: Bytes, n: nat)
    requires SIZE_USB_DEVICE <= n <= |b|
    ensures RecordOf(b) == RecordOf(b[..n])
  {
    assert b[..n][0..256] == b[0..256] && b[..n][256..288] == b[256..288] && b[..n][288..312] == b[288..312];
  }

  lemma {:induction false} InterfacesAreLocal(b: Bytes, n: nat, len: nat)
    requires 4 * n <= len <= |b|
    ensures InterfacesOf(b, n) == InterfacesOf(b[..len], n)
    decreases n
  {
    if n > 0 {
      assert b[..len][4..] == b[4..][..len - 4];
      InterfacesAreLocal(b[4..], n - 1, len - 4);
    }
  }

  /** One device: both readers accept it or neither does, and they see the same one. */
  lemma DeviceReadersAgree(b: Bytes)
    ensures StreamedDevice(b).Ok? <==> DeviceOf(b, true).Ok?
    ensures DeviceOf(b, true).Ok? ==> StreamedDevice(b).value == DeviceOf(b, true).value
  {
    if SIZE_USB_DEVICE <= |b| && Extent(b[311]) <= |b| {
      var len := Extent(b[311]);
      RecordIsLocal(b, len);
      assert b[..len][312..] == b[312..][..len - 312];
      InterfacesAreLocal(b[312..], b[311], len - 312);
    }
  }

  lemma {:induction false} DevicesReadersAgree(b: Bytes, n: nat)
    ensures StreamedDevices(b, n).Ok? <==> DevicesOf(b, n).Ok?
    ensures DevicesOf(b, n).Ok? ==> StreamedDevices(b, n).value.0 == DevicesOf(b, n).value
    decreases n
  {
    if n > 0 {
      DeviceReadersAgree(b);
      if StreamedDevice(b).Ok? {
        DevicesReadersAgree(b[Extent(b[311])..], n - 1);
      }
    }
  }

  /** On every body whatever, the streaming reader and the slice decoder give the same list or both refuse. */
  lemma ReadersAgree(b: Bytes)
    ensures StreamedList(b).Ok? <==> ListOf(b).Ok?
    ensures ListOf(b).Ok? ==> StreamedList(b).value.0 == ListOf(b).value
  {
    if |b| >= 4 {
      assert b[0..4] == b[..4];
      DevicesReadersAgree(b[4..], Word32(b[..4]));
    }
  }

  // --------------------------------------------------------------- round trips

  lemma TailRoundTrip(d: UsbDevice, path: Bytes, busid: Bytes)
    ensures Assemble(path, busid, TailBytes(d)) == d.(path := path, busid := busid, interfaces := [])
  {
    var t := TailBytes(d);
    assert t[0..4] == U32Bytes(d.busnum) && t[4..8] == U32Bytes(d.devnum) && t[8..12] == U32Bytes(d.speed);
    assert t[12..14] == U16Bytes(d.idVendor) && t[14..16] == U16Bytes(d.idProduct);
    assert t[16..18] == U16Bytes(d.bcdDevice);
    Word32RoundTrip(d.busnum);
    Word32RoundTrip(d.devnum);
    Word32RoundTrip(d.speed);
    Word16RoundTrip(d.idVendor);
    Word16RoundTrip(d.idProduct);
    Word16RoundTrip(d.bcdDevice);
  }

  lemma RecordRoundTrip(d: UsbDevice, post: Bytes)
    ensures RecordOf(RecordBytes(d) + post) == Ok(d.(interfaces := [])) <==>
            FitsField(d.path, PATH_LEN) && FitsField(d.busid, BUSID_LEN)
    ensures (RecordBytes(d) + post)[311] == d.numInterfaces
  {
    var p, q, t := TextBytes(d.path, PATH_LEN), TextBytes(d.busid, BUSID_LEN), TailBytes(d);
    var b := RecordBytes(d) + post;
    assert b == [] + p + (q + t + post) && b == p + q + (t + post);
    TextRoundTrip([], d.path, q + t + post, PATH_LEN);
    TextRoundTrip(p, d.busid, t + post, BUSID_LEN);
    assert b[288..312] == t && b[311] == t[23];
    TailRoundTrip(d, d.path, d.busid);
  }

  lemma {:induction false} InterfacesRoundTrip(xs: seq<UsbInterface>, from: nat, n: nat, post: Bytes)
    requires from + n <= |xs|
    ensures InterfacesOf(InterfaceArray(xs, from, n) + post, n) == Ok(xs[from..from + n])
    decreases n
  {
    if n > 0 {
      var b := InterfaceArray(xs, from, n) + post;
      assert b[4..] == InterfaceArray(xs, from + 1, n - 1) + post;
      assert b[0] == xs[from].class_ && b[1] == xs[from].subclass && b[2] == xs[from].protocol;
      InterfacesRoundTrip(xs, from + 1, n - 1, post);
      assert xs[from..from + n] == [xs[from]] + xs[from + 1..from + n];
    } else {
      assert xs[from..from] == [];
    }
  }

  /** What a device must be for its record to say so. */
  predicate Sendable(d: UsbDevice) {
    FitsField(d.path, 256) && FitsField(d.busid, 32) && |d.interfaces| == d.numInterfaces
  }

  lemma DeviceRoundTrip(d: UsbDevice, post: Bytes)
    ensures DeviceOf(DeviceBytes(d, true) + post, true) == Ok(d) <==> Sendable(d)
    ensures (DeviceBytes(d, true) + post)[311] == d.numInterfaces
    ensures (DeviceBytes(d, true) + post)[Extent(d.numInterfaces)..] == post
  {
    var ifs := InterfaceArray(d.interfaces, 0, d.numInterfaces);
    var b := DeviceBytes(d, true) + post;
    assert b == RecordBytes(d) + (ifs + post);
    RecordRoundTrip(d, ifs + post);
    assert b[312..] == ifs + post;
    if |d.interfaces| == d.numInterfaces {
      InterfacesRoundTrip(d.interfaces, 0, d.numInterfaces, post);
      assert d.interfaces[0..d.numInterfaces] == d.interfaces;
    }
  }

  /** An import reply carries the record alone. */
  lemma ImportRoundTrip(d: UsbDevice, post: Bytes)
    ensures DeviceOf(DeviceBytes(d, false) + post, false) == Ok(d) <==>
            FitsField(d.path, PATH_LEN) && FitsField(d.busid, BUSID_LEN) && d.interfaces == []
  {
    assert DeviceBytes(d, false) + post == RecordBytes(d) + post;
    RecordRoundTrip(d, post);
    if d.interfaces == [] {
      assert d.(interfaces := []) == d;
    }
  }

  predicate AllSendable(ds: seq<UsbDevice>) {
    forall i :: 0 <= i < |ds| ==> Sendable(ds[i])
  }

  lemma HeadAndTail(ds: seq<UsbDevice>)
    requires ds != []
    ensures AllSendable(ds) <==> Sendable(ds[0]) && AllSendable(ds[1..])
    ensures ds == [ds[0]] + ds[1..]
  {
    if Sendable(ds[0]) && AllSendable(ds[1..]) {
      forall i | 0 <= i < |ds| ensures Sendable(ds[i]) {
        assert i > 0 ==> ds[i] == ds[1..][i - 1];
      }
    }
  }

  lemma Assoc(a: Bytes, b: Bytes, c: Bytes)
    ensures (a + b) + c == a + (b + c)
  {
  }

  lemma DevicesOfStep(ds: seq<UsbDevice>, b: Bytes, rest: Bytes)
    requires ds != [] && |b| >= SIZE_USB_DEVICE && b[311] == ds[0].numInterfaces
    requires Extent(b[311]) <= |b| && b[Extent(b[311])..] == rest
    ensures DevicesOf(b, |ds|) == Ok(ds) <==> DeviceOf(b, true) == Ok(ds[0]) && DevicesOf(rest, |ds| - 1) == Ok(ds[1..])
  {
    assert ds == [ds[0]] + ds[1..];
  }

  lemma {:induction false} DevicesRoundTrip(ds: seq<UsbDevice>, post: Bytes)
    ensures DevicesOf(DevicesBytes(ds) + post, |ds|) == Ok(ds) <==> AllSendable(ds)
  {
    if ds != [] {
      var head, rest := DeviceBytes(ds[0], true), DevicesBytes(ds[1..]) + post;
      Assoc(head, DevicesBytes(ds[1..]), post);
      DeviceRoundTrip(ds[0], rest);
      DevicesOfStep(ds, head + rest, rest);
      DevicesRoundTrip(ds[1..], post);
      HeadAndTail(ds);
    }
  }

  lemma CountField(n: u32, rest: Bytes)
    ensures U32At(U32Bytes(n) + rest, 0) == Ok(n) && (U32Bytes(n) + rest)[4..] == rest
  {
    assert (U32Bytes(n) + rest)[0..4] == U32Bytes(n);
    Word32RoundTrip(n);
  }

  lemma LongListRefused(ds: seq<UsbDevice>, n: u32, rest: Bytes)
    requires |ds| > MAX_DEVLIST
    ensures ListOf(U32Bytes(n) + rest) != Ok(ds)
  {
  }

  lemma ListOfStep(n: u32, rest: Bytes)
    requires n <= MAX_DEVLIST
    ensures ListOf(U32Bytes(n) + rest) == DevicesOf(rest, n)
  {
    CountField(n, rest);
  }

  /** The list decoder inverts the encoder exactly on lists it is willing to read, of sendable devices. */
  lemma ListRoundTrip(ds: seq<UsbDevice>, post: Bytes)
    ensures ListOf(ListBody(ds) + post) == Ok(ds) <==> |ds| <= 1024 && AllSendable(ds)
  {
    var rest := DevicesBytes(ds) + post;
    Assoc(CountBytes(ds), DevicesBytes(ds), post);
    if |ds| > MAX_DEVLIST {
      LongListRefused(ds, |ds| % 0x1_0000_0000, rest);
    } else {
      ListOfStep(|ds|, rest);
      DevicesRoundTrip(ds, post);
    }
  }

  lemma StreamedStep(ds: seq<UsbDevice>, b: Bytes, rest: Bytes, post: Bytes)
    requires ds != [] && |b| >= SIZE_USB_DEVICE && b[311] == ds[0].numInterfaces
    requires Extent(b[311]) <= |b| && b[Extent(b[311])..] == rest
    requires StreamedDevice(b) == Ok(ds[0]) && StreamedDevices(rest, |ds| - 1) == Ok((ds[1..], post))
    ensures StreamedDevices(b, |ds|) == Ok((ds, post))
  {
    assert ds == [ds[0]] + ds[1..];
  }

  /** The streaming reader takes exactly the devices' bytes and leaves what follows them. */
  lemma {:induction false} StreamedRoundTrip(ds: seq<UsbDevice>, post: Bytes)
    requires AllSendable(ds)
    ensures StreamedDevices(DevicesBytes(ds) + post, |ds|) == Ok((ds, post))
  {
    if ds == [] {
      assert [] + post == post;
    } else {
      var head, rest := DeviceBytes(ds[0], true), DevicesBytes(ds[1..]) + post;
      HeadAndTail(ds);
      Assoc(head, DevicesBytes(ds[1..]), post);
      DeviceRoundTrip(ds[0], rest);
      DeviceReadersAgree(head + rest);
      StreamedRoundTrip(ds[1..], post);
      StreamedStep(ds, head + rest, rest, post);
    }
  }

  lemma OpHeaderRoundTrip(code: u16, status: u32)
    ensures OpHeaderAt(OpHeaderBytes(code, status)) == Ok(OpHeader(USBIP_VERSION, code, status))
  {
    var b := OpHeaderBytes(code, status);
    assert b[0..2] == U16Bytes(USBIP_VERSION) && b[2..4] == U16Bytes(code) && b[4..8] == U32Bytes(status);
    Word16RoundTrip(USBIP_VERSION);
    Word16RoundTrip(code);
    Word32RoundTrip(status);
  }

  lemma ReplyHeaderRoundTrip(code: u16, status: u32, body: Bytes, expected: u16)
    ensures ReplyBody(OpHeaderBytes(code, status) + body, expected) ==
              if code != expected then Err(UnexpectedReply(code))
              else if status != ST_OK then Err(PeerRefused(status))
              else Ok(body)
  {
    var b := OpHeaderBytes(code, status) + body;
    assert b[..8] == OpHeaderBytes(code, status) && b[8..] == body;
    OpHeaderRoundTrip(code, status);
  }

  /** A reply header, byte by byte: what is checked first, and that nothing but the go-ahead is taken for it. */
  lemma ReplyHeaderDecides(b: Bytes, code: u16)
    requires |b| >= 8
    ensures var version, c := b[0] as int * 0x100 + b[1] as int, b[2] as int * 0x100 + b[3] as int;
            var status := BigEndian(b, 4);
            ReplyBody(b, code) == if version != 0x0111 then Err(Invalid(BadVersion(version)))
                                  else if c != code then Err(UnexpectedReply(c))
                                  else if status != 0 then Err(PeerRefused(status))
                                  else Ok(b[8..])
  {
    var h := b[..8];
    assert h[0..2] == [b[0], b[1]] && h[2..4] == [b[2], b[3]] && h[4..8] == [b[4], b[5], b[6], b[7]];
    assert h[4..8][..2] == [b[4], b[5]] && h[4..8][2..] == [b[6], b[7]];
  }

  lemma StreamedListOf(n: u32, rest: Bytes)
    requires n <= MAX_DEVLIST
    ensures StreamedList(U32Bytes(n) + rest) == StreamedDevices(rest, n)
  {
    CountField(n, rest);
    assert (U32Bytes(n) + rest)[..4] == U32Bytes(n);
    Word32RoundTrip(n);
  }

  lemma BodyRoundTrip(ds: seq<UsbDevice>, post: Bytes)
    ensures StreamedList(ListBody(ds) + post) == Ok((ds, post)) <==> |ds| <= MAX_DEVLIST && AllSendable(ds)
  {
    if |ds| <= MAX_DEVLIST && AllSendable(ds) {
      Assoc(CountBytes(ds), DevicesBytes(ds), post);
      StreamedListOf(|ds|, DevicesBytes(ds) + post);
      StreamedRoundTrip(ds, post);
    } else {
      ReadersAgree(ListBody(ds) + post);
      ListRoundTrip(ds, post);
    }
  }

  /** A device list, header and all, is read back and what follows it left, if and only if it may be sent. */
  lemma DevlistReplyRoundTrip(ds: seq<UsbDevice>, post: Bytes)
    ensures DevlistReply(OpHeaderBytes(5, 0) + (ListBody(ds) + post)) == Ok((ds, post))
            <==> |ds| <= 1024 && AllSendable(ds)
  {
    ReplyHeaderRoundTrip(OP_REP_DEVLIST, ST_OK, ListBody(ds) + post, OP_REP_DEVLIST);
    BodyRoundTrip(ds, post);
  }

  /** So is a device offered for import; a refusal is read as one, and never as a device. */
  lemma ImportReplyRoundTrip(d: Option<UsbDevice>, post: Bytes)
    ensures d.Some? ==>
              (ImportReply(ImportReplyBytes(d) + post) == Ok((d.value, post)) <==>
                 FitsField(d.value.path, 256) && FitsField(d.value.busid, 32) && d.value.interfaces == [])
    ensures d.None? ==> ImportReply(ImportReplyBytes(d) + post) == Err(PeerRefused(1))
    ensures ImportReplyBytes(d)[..8] == OpHeaderBytes(3, if d.Some? then 0 else 1)
  {
    match d {
      case Some(x) =>
        var record := DeviceBytes(x, false);
        Assoc(OpHeaderBytes(OP_REP_IMPORT, ST_OK), record, post);
        ReplyHeaderRoundTrip(OP_REP_IMPORT, ST_OK, record + post, OP_REP_IMPORT);
        assert (record + post)[..SIZE_USB_DEVICE] == record + [] && (record + post)[SIZE_USB_DEVICE..] == post;
        ImportRoundTrip(x, []);
      case None =>
        ReplyHeaderRoundTrip(OP_REP_IMPORT, ST_NA, post, OP_REP_IMPORT);
    }
  }

  // -------------------------------------------------------------- the cursors

  method EncodeTail(d: UsbDevice, w: Writer)
    modifies w
    ensures w.buf == old(w.buf) + TailBytes(d)
  {
    w.Put(U32Bytes(d.busnum));
    w.Put(U32Bytes(d.devnum));
    w.Put(U32Bytes(d.speed));
    w.Put(U16Bytes(d.idVendor));
    w.Put(U16Bytes(d.idProduct));
    w.Put(U16Bytes(d.bcdDevice));
    w.Put([d.deviceClass, d.deviceSubClass, d.deviceProtocol,
           d.configurationValue, d.numConfigurations, d.numInterfaces]);
  }

  method EncodeInterfaces(d: UsbDevice, w: Writer)
    modifies w
    ensures w.buf == old(w.buf) + InterfaceArray(d.interfaces, 0, d.numInterfaces)
  {
    var n: int := d.numInterfaces;
    for i := 0 to n
      invariant w.buf + InterfaceArray(d.interfaces, i, n - i) == old(w.buf) + InterfaceArray(d.interfaces, 0, n)
    {
      var x := if i < |d.interfaces| then d.interfaces[i] else DEFAULT_INTERFACE;
      Assoc(w.buf, InterfaceBytes(d.interfaces, i), InterfaceArray(d.interfaces, i + 1, n - i - 1));
      w.Put([x.class_, x.subclass, x.protocol, 0]);
    }
    assert w.buf + [] == w.buf;
  }

  /** `UsbDevice::encode`. */
  method Encode(d: UsbDevice, w: Writer, withInterfaces: bool)
    modifies w
    ensures w.buf == old(w.buf) + DeviceBytes(d, withInterfaces)
  {
    var p, q := TextBytes(d.path, PATH_LEN), TextBytes(d.busid, BUSID_LEN);
    w.Text(d.path, PATH_LEN);
    w.Text(d.busid, BUSID_LEN);
    Assoc(old(w.buf), p, q);
    EncodeTail(d, w);
    Assoc(old(w.buf), p + q, TailBytes(d));
    if withInterfaces {
      EncodeInterfaces(d, w);
      Assoc(old(w.buf), RecordBytes(d), InterfaceArray(d.interfaces, 0, d.numInterfaces));
    } else {
      assert RecordBytes(d) + [] == RecordBytes(d);
    }
  }

  /** `encode_devlist_reply`. */
  method EncodeList(ds: seq<UsbDevice>) returns (b: Bytes)
    ensures b == OpHeaderBytes(OP_REP_DEVLIST, ST_OK) + ListBody(ds)
  {
    var w := new Writer();
    w.Put(OpHeaderBytes(OP_REP_DEVLIST, ST_OK));
    w.Put(CountBytes(ds));
    ghost var start := w.buf;
    for i := 0 to |ds|
      invariant w.buf + DevicesBytes(ds[i..]) == start + DevicesBytes(ds)
    {
      assert ds[i..][1..] == ds[i + 1..];
      Assoc(w.buf, DeviceBytes(ds[i], true), DevicesBytes(ds[i + 1..]));
      Encode(ds[i], w, true);
    }
    assert w.buf + [] == w.buf;
    Assoc(OpHeaderBytes(OP_REP_DEVLIST, ST_OK), CountBytes(ds), DevicesBytes(ds));
    b := w.buf;
  }

  /** What a cursor reads next depends only on what it has left. */
  lemma RestAt(b: Bytes, pos: nat, k: nat, n: nat)
    requires pos + k <= |b|
    ensures BytesAt(b, pos + k, n) == BytesAt(b[pos..], k, n)
  {
    if pos + k + n <= |b| {
      SubSlice(b, pos, |b|, k, k + n);
      assert b[pos..|b|] == b[pos..];
    }
  }

  lemma NumbersFrom(b: Bytes, p: nat, path: Bytes, busid: Bytes)
    requires p + 24 <= |b|
    ensures Assemble(path, busid, b[p..][..24])
            == UsbDevice(path, busid, Word32(b[p..p + 4]), Word32(b[p + 4..p + 8]), Word32(b[p + 8..p + 12]),
                         Word16(b[p + 12..p + 14]), Word16(b[p + 14..p + 16]), Word16(b[p + 16..p + 18]),
                         b[p + 18], b[p + 19], b[p + 20], b[p + 21], b[p + 22], b[p + 23], [])
  {
    assert b[p..][..24] == b[p..p + 24];
    SubSlice(b, p, p + 24, 0, 4);
    SubSlice(b, p, p + 24, 4, 8);
    SubSlice(b, p, p + 24, 8, 12);
    SubSlice(b, p, p + 24, 12, 14);
    SubSlice(b, p, p + 24, 14, 16);
    SubSlice(b, p, p + 24, 16, 18);
  }

  /** The error of the first number a buffer `n` bytes long cannot hold. */
  function ShortNumbers(n: nat): ProtoError
    requires n < 24
  {
    if n < 12 then Truncated(4, n % 4) else if n < 18 then Truncated(2, (n - 12) % 2) else Truncated(1, 0)
  }

  method DecodeU32s(rd: Reader) returns (r: Result<(u32, u32, u32), ProtoError>)
    requires rd.Valid()
    modifies rd
    ensures rd.Valid()
    ensures var p := old(rd.pos);
            if |rd.buf| - p < 12 then r == Err(Truncated(4, (|rd.buf| - p) % 4))
            else rd.pos == p + 12
                 && r == Ok((Word32(rd.buf[p..p + 4]), Word32(rd.buf[p + 4..p + 8]), Word32(rd.buf[p + 8..p + 12])))
  {
    var a :- rd.U32();
    var b :- rd.U32();
    var c :- rd.U32();
    r := Ok((a, b, c));
  }

  method DecodeU16s(rd: Reader) returns (r: Result<(u16, u16, u16), ProtoError>)
    requires rd.Valid()
    modifies rd
    ensures rd.Valid()
    ensures var p := old(rd.pos);
            if |rd.buf| - p < 6 then r == Err(Truncated(2, (|rd.buf| - p) % 2))
            else rd.pos == p + 6
                 && r == Ok((Word16(rd.buf[p..p + 2]), Word16(rd.buf[p + 2..p + 4]), Word16(rd.buf[p + 4..p + 6])))
  {
    var a :- rd.U16();
    var b :- rd.U16();
    var c :- rd.U16();
    r := Ok((a, b, c));
  }

  method DecodeNumbers(rd: Reader, path: Bytes, busid: Bytes) returns (r: Result<UsbDevice, ProtoError>)
    requires rd.Valid()
    modifies rd
    ensures rd.Valid()
    ensures var n := |rd.buf| - old(rd.pos);
            r == if n >= 24 then Ok(Assemble(path, busid, rd.buf[old(rd.pos)..][..24])) else Err(ShortNumbers(n))
    ensures r.Ok? ==> rd.pos == old(rd.pos) + 24
  {
    ghost var p := rd.pos;
    var where :- DecodeU32s(rd);
    var what :- DecodeU16s(rd);
    var class_ :- rd.U8();
    var subclass :- rd.U8();
    var protocol :- rd.U8();
    var config :- rd.U8();
    var configs :- rd.U8();
    var ifs :- rd.U8();
    NumbersFrom(rd.buf, p, path, busid);
    r := Ok(UsbDevice(path, busid, where.0, where.1, where.2, what.0, what.1, what.2,
                      class_, subclass, protocol, config, configs, ifs, []));
  }

  method DecodeRecord(rd: Reader) returns (r: Result<UsbDevice, ProtoError>)
    requires rd.Valid()
    modifies rd
    ensures rd.Valid() && r == RecordOf(rd.buf[old(rd.pos)..])
    ensures r.Ok? ==> rd.pos == old(rd.pos) + SIZE_USB_DEVICE
  {
    ghost var p, rest := rd.pos, rd.buf[rd.pos..];
    RestAt(rd.buf, p, 0, 256);
    var path :- rd.Text(PATH_LEN);
    RestAt(rd.buf, p, 256, 32);
    var busid :- rd.Text(BUSID_LEN);
    r := DecodeNumbers(rd, path, busid);
    assert rd.buf[p + 288..] == rest[288..];
    assert |rest| >= 312 ==> rest[288..][..24] == rest[288..312];
  }

  method DecodeInterfaces(rd: Reader, n: nat) returns (r: Result<seq<UsbInterface>, ProtoError>)
    requires rd.Valid()
    modifies rd
    ensures rd.Valid() && r == InterfacesOf(rd.buf[old(rd.pos)..], n)
    ensures r.Ok? ==> rd.pos == old(rd.pos) + 4 * n
  {
    var xs: seq<UsbInterface> := [];
    ghost var p := rd.pos;
    for i := 0 to n
      invariant rd.Valid() && rd.pos == p + 4 * i && |xs| == i
      invariant InterfacesOf(rd.buf[p..], n) == Prefixed(xs, InterfacesOf(rd.buf[rd.pos..], n - i))
    {
      ghost var rest := rd.buf[rd.pos..];
      if |rest| >= 4 {
        assert rest[4..] == rd.buf[rd.pos + 4..];
        PrefixedOne(xs, UsbInterface(rest[0], rest[1], rest[2]), InterfacesOf(rest[4..], n - i - 1));
      }
      var class_ :- rd.U8();
      var subclass :- rd.U8();
      var protocol :- rd.U8();
      var _ :- rd.Take(1);
      xs := xs + [UsbInterface(class_, subclass, protocol)];
    }
    r := Ok(xs);
  }

  /** `UsbDevice::decode`. */
  method Decode(rd: Reader, withInterfaces: bool) returns (r: Result<UsbDevice, ProtoError>)
    requires rd.Valid()
    modifies rd
    ensures rd.Valid() && r == DeviceOf(rd.buf[old(rd.pos)..], withInterfaces)
    ensures r.Ok? ==>
              rd.pos == old(rd.pos) + (if withInterfaces then Extent(r.value.numInterfaces) else SIZE_USB_DEVICE)
  {
    ghost var p, rest := rd.pos, rd.buf[rd.pos..];
    var d :- DecodeRecord(rd);
    if withInterfaces {
      assert rd.buf[p + 312..] == rest[312..];
      var xs :- DecodeInterfaces(rd, d.numInterfaces);
      d := d.(interfaces := xs);
    }
    r := Ok(d);
  }

  lemma DevicesUnfold(out: seq<UsbDevice>, b: Bytes, n: nat)
    requires n > 0
    ensures DeviceOf(b, true).Ok? ==>
              var d := DeviceOf(b, true).value;
              Prefixed(out, DevicesOf(b, n)) == Prefixed(out + [d], DevicesOf(b[Extent(d.numInterfaces)..], n - 1))
    ensures DeviceOf(b, true).Err? ==> DevicesOf(b, n) == Err(DeviceOf(b, true).error)
  {
    if DeviceOf(b, true).Ok? {
      var d := DeviceOf(b, true).value;
      PrefixedOne(out, d, DevicesOf(b[Extent(d.numInterfaces)..], n - 1));
    }
  }

  lemma Drop(b: Bytes, p: nat, k: nat)
    requires p + k <= |b|
    ensures b[p..][k..] == b[p + k..]
  {
  }

  /** `decode_devlist_reply_body`. */
  method DecodeList(b: Bytes) returns (r: Result<seq<UsbDevice>, ProtoError>)
    ensures r == ListOf(b)
  {
    var rd := new Reader(b);
    var n :- rd.U32();
    if n > MAX_DEVLIST {
      return Err(TooLarge(n, MAX_DEVLIST));
    }
    r := DecodeDevices(rd, n);
  }

  /** `Decode` with what the cursor has left passed in by name. */
  method DecodeNext(rd: Reader, ghost rest: Bytes) returns (r: Result<UsbDevice, ProtoError>)
    requires rd.Valid() && rest == rd.buf[rd.pos..]
    modifies rd
    ensures rd.Valid() && r == DeviceOf(rest, true)
    ensures r.Ok? ==> rd.buf[rd.pos..] == rest[Extent(r.value.numInterfaces)..]
  {
    ghost var p := rd.pos;
    r := Decode(rd, true);
    if r.Ok? {
      Drop(rd.buf, p, Extent(r.value.numInterfaces));
    }
  }

  /** One more device: `goal` is what the whole loop has to come to. */
  method DecodeOneMore(rd: Reader, ghost rest: Bytes, out: seq<UsbDevice>, ghost n: nat,
                       ghost goal: Result<seq<UsbDevice>, ProtoError>)
    returns (r: Result<seq<UsbDevice>, ProtoError>, ghost left: Bytes)
    requires rd.Valid() && rest == rd.buf[rd.pos..] && n > 0 && goal == Prefixed(out, DevicesOf(rest, n))
    modifies rd
    ensures rd.Valid()
    ensures r.Ok? ==> left == rd.buf[rd.pos..] && goal == Prefixed(r.value, DevicesOf(left, n - 1))
    ensures r.Err? ==> goal == r
  {
    DevicesUnfold(out, rest, n);
    var next := DecodeNext(rd, rest);
    if next.Err? {
      return Err(next.error), rest;
    }
    return Ok(out + [next.value]), rest[Extent(next.value.numInterfaces)..];
  }

  method DecodeDevices(rd: Reader, n: nat) returns (r: Result<seq<UsbDevice>, ProtoError>)
    requires rd.Valid()
    modifies rd
    ensures r == DevicesOf(rd.buf[old(rd.pos)..], n)
  {
    var out: seq<UsbDevice> := [];
    ghost var rest := rd.buf[rd.pos..];
    ghost var goal := DevicesOf(rest, n);
    for i := 0 to n
      invariant rd.Valid() && rest == rd.buf[rd.pos..]
      invariant goal == Prefixed(out, DevicesOf(rest, n - i))
    {
      var next;
      next, rest := DecodeOneMore(rd, rest, out, n - i, goal);
      out :- next;
    }
    r := Ok(out);
  }

  /** The same for a reader that also says what it left. */
  function StreamPrefixed(ds: seq<UsbDevice>, r: Result<(seq<UsbDevice>, Bytes), IoError>)
    : (p: Result<(seq<UsbDevice>, Bytes), IoError>)
    ensures ds == [] ==> p == r
    ensures r.Ok? && r.value.0 == [] ==> p == Ok((ds, r.value.1))
  {
    if r.Err? then r
    else
      assert ds == [] ==> ds + r.value.0 == r.value.0;
      assert r.value.0 == [] ==> ds + r.value.0 == ds;
      Ok((ds + r.value.0, r.value.1))
  }

  lemma StreamUnfold(ds: seq<UsbDevice>, b: Bytes, n: nat)
    requires n > 0
    ensures StreamedDevice(b).Ok? ==>
              var d := StreamedDevice(b).value;
              StreamPrefixed(ds, StreamedDevices(b, n))
              == StreamPrefixed(ds + [d], StreamedDevices(b[Extent(d.numInterfaces)..], n - 1))
    ensures StreamedDevice(b).Err? ==> StreamedDevices(b, n) == Err(StreamedDevice(b).error)
  {
    if StreamedDevice(b).Ok? {
      var d := StreamedDevice(b).value;
      var r := StreamedDevices(b[Extent(d.numInterfaces)..], n - 1);
      if r.Ok? {
        assert ds + ([d] + r.value.0) == ds + [d] + r.value.0;
      }
    }
  }

  /** `read_op_header` and `expect_reply`. */
  method ReadReplyHeader(s: Stream, code: u16) returns (r: Result<OpHeader, IoError>)
    modifies s
    ensures match ReplyBody(old(s.rest), code)
            case Ok(body) => r.Ok? && s.rest == body
            case Err(e) => r == Err(e)
  {
    ghost var all := s.rest;
    var buf :- s.ReadExact(8);
    assert buf == all[..8];
    var decoded := DecodeOpHeader(buf);
    r := Lift(decoded);
    if r.Ok? && ReplyError(r.value, code).Some? {
      r := Err(ReplyError(r.value, code).value);
    }
  }

  method DecodeOpHeader(b: Bytes) returns (r: Result<OpHeader, ProtoError>)
    ensures r == OpHeaderAt(b)
  {
    var rd := new Reader(b);
    var version :- rd.U16();
    var code :- rd.U16();
    var status :- rd.U32();
    r := Ok(OpHeader(version, code, status));
  }

  /** `read_devlist_reply`. */
  method ReadDevlistReply(s: Stream) returns (r: Result<seq<UsbDevice>, IoError>)
    modifies s
    ensures match DevlistReply(old(s.rest))
            case Ok((ds, left)) => r == Ok(ds) && s.rest == left
            case Err(e) => r == Err(e)
  {
    var _ :- ReadReplyHeader(s, OP_REP_DEVLIST);
    r := ReadList(s);
  }

  /** `read_import_reply`. */
  method ReadImportReply(s: Stream) returns (r: Result<UsbDevice, IoError>)
    modifies s
    ensures match ImportReply(old(s.rest))
            case Ok((d, left)) => r == Ok(d) && s.rest == left
            case Err(e) => r == Err(e)
  {
    var _ :- ReadReplyHeader(s, OP_REP_IMPORT);
    var buf :- s.ReadExact(SIZE_USB_DEVICE);
    var rd := new Reader(buf);
    assert rd.buf[0..] == rd.buf;
    var d := Decode(rd, false);
    r := Lift(d);
  }

  /** `encode_import_reply`. */
  method EncodeImportReply(d: Option<UsbDevice>) returns (b: Bytes)
    ensures b == ImportReplyBytes(d)
  {
    var w := new Writer();
    match d {
      case Some(x) =>
        w.Put(OpHeaderBytes(OP_REP_IMPORT, ST_OK));
        Encode(x, w, false);
      case None =>
        w.Put(OpHeaderBytes(OP_REP_IMPORT, ST_NA));
    }
    b := w.buf;
  }

  /** The count and the devices of a list. */
  method ReadList(s: Stream) returns (r: Result<seq<UsbDevice>, IoError>)
    modifies s
    ensures match StreamedList(old(s.rest))
            case Ok((ds, left)) => r == Ok(ds) && s.rest == left
            case Err(e) => r == Err(e)
  {
    var count :- s.ReadExact(4);
    var n := Word32(count);
    if n > MAX_DEVLIST {
      return Err(Invalid(TooLarge(n, MAX_DEVLIST)));
    }
    r := ReadDevices(s, n);
  }

  method ReadDevices(s: Stream, n: nat) returns (r: Result<seq<UsbDevice>, IoError>)
    modifies s
    ensures match StreamedDevices(old(s.rest), n)
            case Ok((ds, left)) => r == Ok(ds) && s.rest == left
            case Err(e) => r == Err(e)
  {
    var out: seq<UsbDevice> := [];
    for i := 0 to n
      invariant StreamedDevices(old(s.rest), n) == StreamPrefixed(out, StreamedDevices(s.rest, n - i))
    {
      StreamUnfold(out, s.rest, n - i);
      var d :- ReadDevice(s);
      out := out + [d];
    }
    r := Ok(out);
  }

  method ReadDevice(s: Stream) returns (r: Result<UsbDevice, IoError>)
    modifies s
    ensures r == StreamedDevice(old(s.rest))
    ensures r.Ok? ==> s.rest == old(s.rest)[Extent(r.value.numInterfaces)..]
  {
    ghost var b := s.rest;
    var record :- s.ReadExact(SIZE_USB_DEVICE);
    var ifs: nat := record[SIZE_USB_DEVICE - 1];
    var more :- s.ReadExact(4 * ifs);
    assert record + more == b[..Extent(b[311])] && s.rest == b[Extent(b[311])..];
    var rd := new Reader(record + more);
    assert rd.buf[0..] == rd.buf;
    var d := Decode(rd, true);
    r := Lift(d);
  }
}
