/**
  * The usbfs layer (crates/usb-backend/src/usbfs.rs): what a request becomes in memory,
  * and the table of URBs in flight.
  *
  * The kernel is abstract. It answers each ioctl as it likes, subject to one rule: what
  * it hands back from a reap is a URB it was given and has not handed back before.
  */
module Usbfs {
  import opened Types
  import opened Wire
  import opened Pdu
  import opened Framing

  const EIO: i32 := 5
  const EBUSY: i32 := 16
  const ENODEV: i32 := 19
  const EINVAL: i32 := 22
  const EPIPE: i32 := 32
  const EOPNOTSUPP: i32 := 95
  const ECONNRESET: i32 := 104
  const ESHUTDOWN: i32 := 108

  const SETUP_LEN := 8

  datatype UrbType = Iso | Interrupt | Control | Bulk

  /** What stays fixed while a device is open. */
  datatype Device = Device(epTypes: map<u8, UrbType>, maxTransfer: nat)

  datatype UrbRequest = UrbRequest(
    seqnum: u32, ep: u8, dir: Direction, setup: Setup, bufferLength: nat, data: Bytes)

  /** The allocation handed to the kernel: `length` is the URB's own idea of `buffer`'s size. */
  datatype PendingUrb = PendingUrb(
    seqnum: u32, typ: UrbType, endpoint: u8, buffer: Bytes, length: nat,
    dir: Direction, dataOffset: nat, maxReply: nat)

  /** The kernel's answer to an ioctl. */
  datatype Ioctl = Success | Errno(errno: i32)

  datatype SubmitResult = Submitted | Refused(status: i32) | Handled(status: i32) | Fatal

  datatype Completion = Completion(seqnum: u32, status: i32, actualLength: nat, data: Bytes)

  // ---------------------------------------------------------------- requests

  function Address(ep: u8, dir: Direction): u8 {
    if dir.Out? then ep % 0x80 else if ep < 0x80 then ep + 0x80 else ep
  }

  function UrbTypeFor(dev: Device, ep: u8, dir: Direction): Result<UrbType, SubmitResult> {
    if ep == 0 then Ok(Control)
    else if Address(ep, dir) !in dev.epTypes then Err(Refused(-EPIPE))
    else if dev.epTypes[Address(ep, dir)].Iso? then Err(Refused(-EOPNOTSUPP))
    else Ok(dev.epTypes[Address(ep, dir)])
  }

  datatype Special =
    | SetAddress(value: u16)
    | SetConfiguration(value: u16)
    | SetInterface(iface: u16, alt: u16)
    | ClearHalt(endpoint: u16)

  /** Requests that must go through their own ioctl; device-to-host ones never do. */
  function Classify(setup: Setup): Option<Special> {
    var value := Word16Le(setup[2], setup[3]);
    var index := Word16Le(setup[4], setup[5]);
    if setup[0] >= 0x80 then None
    else if setup[0] == 0 && setup[1] == 5 then Some(SetAddress(value))
    else if setup[0] == 0 && setup[1] == 9 then Some(SetConfiguration(value))
    else if setup[0] == 1 && setup[1] == 11 then Some(SetInterface(index, value))
    else if setup[0] == 2 && setup[1] == 1 && value == 0 then Some(ClearHalt(index))
    else None
  }

  /** The request as section 9.4 of the USB 2.0 specification lays it out; `other` is the field it does not use. */
  function SetupFor(s: Special, other: u16, length: u16): Setup {
    match s
    case SetAddress(v) => [0, 5] + Le16(v) + Le16(other) + Le16(length)
    case SetConfiguration(v) => [0, 9] + Le16(v) + Le16(other) + Le16(length)
    case SetInterface(iface, alt) => [1, 11] + Le16(alt) + Le16(iface) + Le16(length)
    case ClearHalt(ep) => [2, 1, 0, 0] + Le16(ep) + Le16(length)
  }

  /** The field a special request leaves free. */
  function FreeField(setup: Setup): u16 {
    if setup[0] == 0 then Word16Le(setup[4], setup[5]) else 0
  }

  /** Every state-changing request is intercepted, with its own operands, */
  lemma SpecialIsClassified(s: Special, other: u16, length: u16)
    ensures Classify(SetupFor(s, other, length)) == Some(s)
  {
    match s {
      case SetAddress(v) => Le16RoundTrip(v, 0, 0);
      case SetConfiguration(v) => Le16RoundTrip(v, 0, 0);
      case SetInterface(iface, alt) =>
        Le16RoundTrip(iface, 0, 0);
        Le16RoundTrip(alt, 0, 0);
      case ClearHalt(ep) => Le16RoundTrip(ep, 0, 0);
    }
  }

  /** and nothing else is. */
  lemma ClassifiedIsSpecial(setup: Setup, s: Special)
    requires Classify(setup) == Some(s)
    ensures setup == SetupFor(s, FreeField(setup), WLength(setup))
  {
    Le16RoundTrip(0, setup[2], setup[3]);
    Le16RoundTrip(0, setup[4], setup[5]);
    Le16RoundTrip(0, setup[6], setup[7]);
    assert setup == [setup[0], setup[1]] + [setup[2], setup[3]] + [setup[4], setup[5]] + [setup[6], setup[7]];
  }

  function WLength(setup: Setup): nat {
    Word16Le(setup[6], setup[7])
  }

  function PayloadLen(typ: UrbType, req: UrbRequest): nat {
    if typ.Control? then Max(req.bufferLength, WLength(req.setup)) else req.bufferLength
  }

  function DataOffset(typ: UrbType): nat {
    if typ.Control? then SETUP_LEN else 0
  }

  /** Never empty, so the pointer given to the kernel is always valid. */
  function BufferFor(typ: UrbType, req: UrbRequest): Bytes {
    var off := DataOffset(typ);
    var total := off + PayloadLen(typ, req);
    var n := if req.dir.Out? then Min(|req.data|, PayloadLen(typ, req)) else 0;
    (if typ.Control? then req.setup else []) + req.data[..Min(n, |req.data|)]
    + Zeros(Max(total, 1) - off - Min(n, |req.data|))
  }

  /** Where a submit gets to before the table is consulted. */
  datatype Prepared = Answered(result: SubmitResult) | Intercepted(special: Special) | Built(urb: PendingUrb)

  function Prepare(dev: Device, req: UrbRequest): Prepared {
    var t := UrbTypeFor(dev, req.ep, req.dir);
    if t.Err? then Answered(t.error)
    else if t.value.Control? && Classify(req.setup).Some? then Intercepted(Classify(req.setup).value)
    else if PayloadLen(t.value, req) > dev.maxTransfer then Answered(Refused(-EINVAL))
    else Built(PendingUrb(req.seqnum, t.value, Address(req.ep, req.dir), BufferFor(t.value, req),
                          DataOffset(t.value) + PayloadLen(t.value, req), req.dir,
                          DataOffset(t.value), req.bufferLength))
  }

  /** Success is answered even when the ioctl failed, unless the device is gone. */
  function SpecialResult(special: Special, k: Ioctl): SubmitResult {
    if !special.SetAddress? && k.Errno? && (k.errno == ENODEV || k.errno == ESHUTDOWN) then Fatal
    else Handled(0)
  }

  /** The request `reader_loop` makes of a submit it has read. */
  function RequestOf(c: Command): UrbRequest
    requires c.header.body.BodyCmdSubmit?
  {
    var s := c.header.body.submit;
    UrbRequest(c.header.base.seqnum, c.header.base.ep % 0x10, DirectionOf(c.header.base.direction),
               s.setup, Max(s.transferBufferLength, 0), c.data)
  }

  /** What `reap` makes of a URB whose buffer the kernel has filled. */
  function CompletionOf(u: PendingUrb, status: i32, actual: i32, filled: Bytes): (c: Completion)
    requires u.dataOffset <= |filled|
  {
    var n := Min(Min(Max(actual, 0), u.maxReply), |filled| - u.dataOffset);
    if u.dir.In? then Completion(u.seqnum, status, n, filled[u.dataOffset..u.dataOffset + n])
    else Completion(u.seqnum, status, Max(actual, 0), [])
  }

  /** An all-zero setup packet is never special, so a prefetch URB is never carried out as an ioctl. */
  lemma InternalUrbIsNeverHandled(dev: Device, req: UrbRequest)
    requires req.setup == [0, 0, 0, 0, 0, 0, 0, 0]
    ensures !Prepare(dev, req).Intercepted?
    ensures Prepare(dev, req).Answered? ==> Prepare(dev, req).result.Refused?
  {
  }

  /**
    * What the kernel is given for a submit, in the command's own terms: its endpoint address, the
    * endpoint's type, a buffer that covers both lengths the kernel may trust, holding the setup
    * packet and then every OUT byte, and zeros behind that.
    */
  ghost predicate BuiltFor(dev: Device, c: Command, u: PendingUrb)
    requires c.header.body.BodyCmdSubmit?
  {
    var h, s := c.header.base, c.header.body.submit;
    var wanted := s.setup[6] as int + 0x100 * s.setup[7] as int;
    && u.seqnum == h.seqnum && (u.dir.In? <==> h.direction == 1)
    && u.endpoint == h.ep % 0x10 + (if h.direction == 1 then 0x80 else 0)
    && (if h.ep % 0x10 == 0 then u.typ == Control
        else u.endpoint in dev.epTypes && dev.epTypes[u.endpoint] == u.typ && u.typ != Iso)
    && u.dataOffset == (if u.typ.Control? then 8 else 0) && u.maxReply == s.transferBufferLength
    && u.length - u.dataOffset
       == (if u.typ.Control? then Max(s.transferBufferLength, wanted) else s.transferBufferLength)
    && u.length - u.dataOffset <= dev.maxTransfer && |u.buffer| == Max(u.length, 1)
    && (u.typ.Control? ==> u.buffer[..8] == s.setup)
    && (h.direction != 1 ==> |c.data| == s.transferBufferLength
                             && u.buffer[u.dataOffset..u.dataOffset + |c.data|] == c.data)
    && (forall i :: u.dataOffset + |c.data| <= i < |u.buffer| ==> u.buffer[i] == 0)
  }

  /**
    * What a client is to get for a reaped URB: its own seqnum, the kernel's status, for IN as many
    * bytes as were transferred, but no more than it asked for, from where the data starts in the
    * kernel's buffer; for OUT the count alone.
    */
  ghost predicate CompletesAs(u: PendingUrb, status: i32, actual: i32, filled: Bytes, done: Completion)
    requires u.dataOffset <= |filled|
  {
    && done.seqnum == u.seqnum && done.status == status
    && (u.dir.Out? ==> done.data == [] && done.actualLength == Max(actual, 0))
    && (u.dir.In? ==>
          && done.actualLength == |done.data|
          && (actual < 0 ==> done.data == [])
          && (0 <= actual <= u.maxReply && u.dataOffset + actual <= |filled| ==>
                done.data == filled[u.dataOffset..u.dataOffset + actual])
          && (0 <= u.maxReply < actual && u.dataOffset + u.maxReply <= |filled| ==>
                done.data == filled[u.dataOffset..u.dataOffset + u.maxReply])
          && (|filled| - u.dataOffset < actual && |filled| - u.dataOffset < u.maxReply ==>
                done.data == filled[u.dataOffset..]))
  }

  lemma ReapCompletes(u: PendingUrb, status: i32, actual: i32, filled: Bytes)
    requires u.dataOffset <= |filled|
    ensures CompletesAs(u, status, actual, filled, CompletionOf(u, status, actual, filled))
  {
    assert filled[u.dataOffset..|filled|] == filled[u.dataOffset..];
  }

  /** That determines the completion. */
  lemma CompletesOneWay(u: PendingUrb, status: i32, actual: i32, filled: Bytes, c: Completion, d: Completion)
    requires u.dataOffset <= |filled|
    requires CompletesAs(u, status, actual, filled, c) && CompletesAs(u, status, actual, filled, d)
    ensures c == d
  {
  }

  /**
    * From the socket to the kernel and back. Whatever `read_pdu` accepts and `submit` builds is
    * built for that command; whatever the kernel then reports, the client is answered with what was
    * transferred, cut to what it asked for. Here nothing is ever cut by the end of the buffer.
    */
  lemma BufferEndToEnd(dev: Device, c: Command, status: i32, actual: i32, filled: Bytes)
    requires Acceptable(c, dev.maxTransfer) && c.header.body.BodyCmdSubmit?
    requires Prepare(dev, RequestOf(c)).Built?
    requires |filled| == |Prepare(dev, RequestOf(c)).urb.buffer|
    ensures BuiltFor(dev, c, Prepare(dev, RequestOf(c)).urb)
    ensures var u, length := Prepare(dev, RequestOf(c)).urb, c.header.body.submit.transferBufferLength;
            var done := CompletionOf(u, status, actual, filled);
            && done.seqnum == c.header.base.seqnum && done.status == status
            && (c.header.base.direction == 1 ==>
                  && done.actualLength == |done.data| == Max(0, if actual <= length then actual else length)
                  && done.data == filled[u.dataOffset..u.dataOffset + |done.data|])
            && (c.header.base.direction != 1 ==> done.data == [] && done.actualLength == Max(actual, 0))
  {
    var u := Prepare(dev, RequestOf(c)).urb;
    BuildsFor(dev, c);
    ReapCompletes(u, status, actual, filled);
  }

  lemma BuildsFor(dev: Device, c: Command)
    requires Acceptable(c, dev.maxTransfer) && c.header.body.BodyCmdSubmit?
    requires Prepare(dev, RequestOf(c)).Built?
    ensures BuiltFor(dev, c, Prepare(dev, RequestOf(c)).urb)
  {
    BufferLayout(Prepare(dev, RequestOf(c)).urb.typ, RequestOf(c));
  }

  /** What becomes of a submit before the table is asked, in the command's own terms: every case, and no other. */
  lemma PreparedExactly(dev: Device, c: Command)
    requires Acceptable(c, dev.maxTransfer) && c.header.body.BodyCmdSubmit?
    ensures var p, s := Prepare(dev, RequestOf(c)), c.header.body.submit;
            var ep := c.header.base.ep % 0x10;
            var address := ep + (if c.header.base.direction == 1 then 0x80 else 0);
            if ep != 0 && address !in dev.epTypes then p == Answered(Refused(-32))
            else if ep != 0 && dev.epTypes[address].Iso? then p == Answered(Refused(-95))
            else
              var control := ep == 0 || dev.epTypes[address].Control?;
              if control && (exists x, other, length :: SetupFor(x, other, length) == s.setup) then
                p.Intercepted? && forall x, other, length :: SetupFor(x, other, length) == s.setup ==> p.special == x
              else if control && s.setup[6] as int + 0x100 * s.setup[7] as int > dev.maxTransfer then
                p == Answered(Refused(-22))
              else p.Built? && BuiltFor(dev, c, p.urb)
  {
    var setup := c.header.body.submit.setup;
    if Classify(setup).Some? {
      ClassifiedIsSpecial(setup, Classify(setup).value);
    }
    forall x, other, length | SetupFor(x, other, length) == setup
      ensures Classify(setup) == Some(x)
    {
      SpecialIsClassified(x, other, length);
    }
    if Prepare(dev, RequestOf(c)).Built? {
      BuildsFor(dev, c);
    }
  }

  /**
    * What the client's submit is answered with, and when it is not answered at all: `k` is what the
    * kernel says to the ioctl. A state-changing request succeeds even when its ioctl failed, unless
    * the device is gone.
    */
  lemma SubmitDecides(dev: Device, t: Table, req: UrbRequest, k: Ioctl)
    ensures var (t', r) := DoSubmit(dev, t, req, k);
            var gone := k == Errno(19) || k == Errno(108);
            match Prepare(dev, req)
            case Answered(refusal) => r == refusal && r.Refused? && t' == t
            case Intercepted(x) => t' == t && r == if gone && !x.SetAddress? then Fatal else Handled(0)
            case Built(u) =>
              if req.seqnum in t.pending then r == Refused(-16) && t' == t
              else if k.Success? then r == Submitted && t'.pending == t.pending[req.seqnum := Entry(t.next, false)]
                                      && t'.heap == t.heap[t.next := u] && t.next in t'.kernel
              else if gone then r == Fatal && t'.pending == t.pending && t'.heap == t.heap
              else t'.pending == t.pending && t'.heap == t.heap
                   && r.Refused? && (k.errno > -0x8000_0000 ==> r.status == -k.errno)
  {
  }

  lemma BufferLayout(typ: UrbType, req: UrbRequest)
    requires req.dir.Out? ==> |req.data| == req.bufferLength
    ensures |BufferFor(typ, req)| == Max(DataOffset(typ) + PayloadLen(typ, req), 1)
    ensures typ.Control? ==> BufferFor(typ, req)[..8] == req.setup
    ensures req.dir.Out? ==> BufferFor(typ, req)[DataOffset(typ)..DataOffset(typ) + |req.data|] == req.data
    ensures var n := DataOffset(typ) + (if req.dir.Out? then |req.data| else 0);
            forall i :: n <= i < |BufferFor(typ, req)| ==> BufferFor(typ, req)[i] == 0
  {
  }

  // ------------------------------------------------------------------- table

  type Addr = nat

  datatype Entry = Entry(urb: Addr, unlinked: bool)

  /**
    * Everything the mutex protects, with the allocator and the kernel beside it: `heap` is the
    * live `PendingUrb` boxes, `kernel` the ones submitted and not yet reaped, `freed` how often
    * each address has been freed, `next` the next address the allocator returns.
    */
  datatype Table = Table(
    pending: map<u32, Entry>, heap: map<Addr, PendingUrb>, kernel: set<Addr>,
    freed: multiset<Addr>, next: Addr)

  const EMPTY_TABLE := Table(map[], map[], {}, multiset{}, 0)

  /** Every allocation so far is either live or has been freed exactly once. */
  ghost predicate Accounted(t: Table) {
    && (forall a :: a in t.heap ==> a < t.next)
    && (forall a: Addr :: t.freed[a] == if a < t.next && a !in t.heap then 1 else 0)
  }

  /** Every entry owns one live allocation, filed under that allocation's own seqnum. */
  ghost predicate Linked(t: Table) {
    && (forall s :: s in t.pending ==>
          t.pending[s].urb in t.heap && t.heap[t.pending[s].urb].seqnum == s)
    && (forall a :: a in t.heap ==>
          t.heap[a].seqnum in t.pending && t.pending[t.heap[a].seqnum].urb == a)
    && (forall a :: a in t.heap ==> t.heap[a].dataOffset <= |t.heap[a].buffer|)
    && Accounted(t)
  }

  /** The table, the live allocations and the kernel agree, entry by entry. */
  ghost predicate Mirrors(t: Table) {
    Linked(t) && t.kernel == t.heap.Keys
  }

  /** Dropping an entry together with its allocation. */
  function Free(t: Table, s: u32): Table
    requires s in t.pending
  {
    t.(pending := t.pending - {s}, heap := t.heap - {t.pending[s].urb},
       freed := t.freed + multiset{t.pending[s].urb})
  }

  lemma FreeKeepsLinks(t: Table, s: u32)
    requires Linked(t) && s in t.pending
    ensures Linked(Free(t, s)) && |Free(t, s).pending| == |t.pending| - 1
  {
    assert t.pending.Keys == Free(t, s).pending.Keys + {s};
  }

  function SubmitErrno(errno: i32): SubmitResult {
    if errno == ENODEV || errno == ESHUTDOWN then Fatal
    else Refused(if errno == -0x8000_0000 then errno else -errno)
  }

  /** A built URB meets the table and the kernel; a refused one is freed at once. */
  function Enqueue(t: Table, u: PendingUrb, k: Ioctl): (Table, SubmitResult) {
    if u.seqnum in t.pending then (t, Refused(-EBUSY))
    else if k.Errno? then
      (t.(next := t.next + 1, freed := t.freed + multiset{t.next}), SubmitErrno(k.errno))
    else
      (t.(pending := t.pending[u.seqnum := Entry(t.next, false)],
          heap := t.heap[t.next := u], kernel := t.kernel + {t.next}, next := t.next + 1),
       Submitted)
  }

  function DoSubmit(dev: Device, t: Table, req: UrbRequest, k: Ioctl): (Table, SubmitResult) {
    match Prepare(dev, req)
    case Answered(r) => (t, r)
    case Intercepted(special) => (t, SpecialResult(special, k))
    case Built(u) => Enqueue(t, u, k)
  }

  /** Marked whether or not the discard lands; the answer says whether it did. */
  function DoUnlink(t: Table, seqnum: u32, landed: bool): (Table, bool) {
    if seqnum !in t.pending then (t, false)
    else (t.(pending := t.pending[seqnum := t.pending[seqnum].(unlinked := true)]), landed)
  }

  /** Every entry of `which` marked. */
  function MarkUnlinked(t: Table, which: set<u32>): Table {
    t.(pending := map s | s in t.pending :: if s in which then t.pending[s].(unlinked := true) else t.pending[s])
  }

  lemma MarkOneMore(t: Table, done: set<u32>, s: u32, landed: bool)
    ensures DoUnlink(MarkUnlinked(t, done), s, landed).0 == MarkUnlinked(t, done + {s})
  {
  }

  lemma MarkUnlinkedMirrors(t: Table, which: set<u32>)
    requires Mirrors(t)
    ensures Mirrors(MarkUnlinked(t, which))
  {
  }

  /** The kernel's answer to a reap. `Completes` hands back one of its URBs, buffer filled in. */
  datatype KernelReap = Nothing | Failure | Completes(urb: Addr, status: i32, actual: i32, filled: Bytes)

  predicate KernelMay(t: Table, k: KernelReap) {
    k.Completes? ==> k.urb in t.kernel && k.urb in t.heap && |k.filled| == |t.heap[k.urb].buffer|
                     && t.heap[k.urb].dataOffset <= |k.filled|
  }

  datatype Reaped = NoneReady | ReapFailed | Reaped(completion: Completion, unlinked: bool)

  function DoReap(t: Table, k: KernelReap): (Table, Reaped)
    requires KernelMay(t, k)
  {
    match k
    case Nothing => (t, NoneReady)
    case Failure => (t, ReapFailed)
    case Completes(a, status, actual, filled) =>
      var u := t.heap[a];
      (t.(pending := t.pending - {u.seqnum}, heap := t.heap - {a}, kernel := t.kernel - {a},
          freed := t.freed + multiset{a}),
       Reaped(CompletionOf(u, status, actual, filled),
              u.seqnum in t.pending && t.pending[u.seqnum].unlinked))
  }

  lemma EnqueueMirrors(t: Table, u: PendingUrb, k: Ioctl)
    requires Mirrors(t) && u.dataOffset <= |u.buffer|
    ensures Mirrors(Enqueue(t, u, k).0)
  {
    var t' := Enqueue(t, u, k).0;
    assert t.next !in t.heap;
    forall s | s in t'.pending
      ensures t'.pending[s].urb in t'.heap && t'.heap[t'.pending[s].urb].seqnum == s
    {
      assert s == u.seqnum || s in t.pending;
    }
  }

  lemma SubmitMirrors(dev: Device, t: Table, req: UrbRequest, k: Ioctl)
    requires Mirrors(t)
    ensures Mirrors(DoSubmit(dev, t, req, k).0)
  {
    var p := Prepare(dev, req);
    if p.Built? {
      assert p.urb.dataOffset <= |p.urb.buffer|;
      EnqueueMirrors(t, p.urb, k);
    }
  }

  lemma UnlinkMirrors(t: Table, seqnum: u32, landed: bool)
    requires Mirrors(t)
    ensures Mirrors(DoUnlink(t, seqnum, landed).0)
  {
  }

  /** A successful reap frees one allocation and removes exactly its own entry. */
  lemma ReapMirrors(t: Table, k: KernelReap)
    requires Mirrors(t) && KernelMay(t, k)
    ensures Mirrors(DoReap(t, k).0)
    ensures k.Completes? ==> |DoReap(t, k).0.pending| == |t.pending| - 1
  {
    if k.Completes? {
      FreeKeepsLinks(t, t.heap[k.urb].seqnum);
    }
  }

  // ------------------------------------------------------ the end of the device

  /** Answers the kernel may give to one reap after another, starting on table `t`. */
  ghost predicate MayDrain(t: Table, ks: seq<KernelReap>)
    decreases |ks|, 0
  {
    ks == [] || (MayDrain(t, ks[..|ks| - 1]) && KernelMay(DoDrain(t, ks[..|ks| - 1]), ks[|ks| - 1]))
  }

  /** The table once those reaps have been made. */
  ghost function DoDrain(t: Table, ks: seq<KernelReap>): Table
    requires MayDrain(t, ks)
    decreases |ks|, 1
  {
    if ks == [] then t else DoReap(DoDrain(t, ks[..|ks| - 1]), ks[|ks| - 1]).0
  }

  lemma DrainOneMore(t: Table, ks: seq<KernelReap>, k: KernelReap)
    requires MayDrain(t, ks) && KernelMay(DoDrain(t, ks), k)
    ensures MayDrain(t, ks + [k]) && DoDrain(t, ks + [k]) == DoReap(DoDrain(t, ks), k).0
  {
    assert (ks + [k])[..|ks|] == ks;
  }

  /** Allocations the table's entries own. */
  function Owned(t: Table): set<Addr> {
    set s | s in t.pending :: t.pending[s].urb
  }

  /** Every entry dropped together with its allocation. */
  function FreeAll(t: Table): Table {
    t.(pending := map[], heap := t.heap - Owned(t), freed := t.freed + multiset(Owned(t)))
  }

  lemma OwnedWithout(t: Table, s: u32)
    requires Linked(t) && s in t.pending
    ensures Owned(Free(t, s)) == Owned(t) - {t.pending[s].urb} && t.pending[s].urb in Owned(t)
  {
    forall q | q in t.pending && q != s
      ensures t.pending[q].urb in Owned(Free(t, s)) && t.pending[q].urb != t.pending[s].urb
    {
      assert q in Free(t, s).pending;
    }
  }

  /** Which entry goes first makes no difference. */
  lemma FreeOneFirst(t: Table, s: u32)
    requires Linked(t) && s in t.pending
    ensures FreeAll(Free(t, s)) == FreeAll(t)
  {
    var a := t.pending[s].urb;
    OwnedWithout(t, s);
    assert multiset(Owned(t)) == multiset{a} + multiset(Owned(t) - {a});
    assert t.heap - {a} - (Owned(t) - {a}) == t.heap - Owned(t);
  }

  /** What `cancel_pending` makes of the table, if its drain got `ks` from the kernel. */
  ghost function DoCancel(t: Table, ks: seq<KernelReap>): Table
    requires MayDrain(MarkUnlinked(t, t.pending.Keys), ks)
  {
    DoDrain(MarkUnlinked(t, t.pending.Keys), ks)
  }

  /** `Drop`: cancel, close the descriptor, and free what the kernel never gave back. */
  ghost function DoClose(t: Table, ks: seq<KernelReap>): Table
    requires MayDrain(MarkUnlinked(t, t.pending.Keys), ks)
  {
    FreeAll(DoCancel(t, ks).(kernel := {}))
  }

  /** A drain allocates nothing and takes back no free; what entries it leaves are as they were. */
  lemma {:induction false} DrainMirrors(t: Table, ks: seq<KernelReap>)
    requires Mirrors(t) && MayDrain(t, ks)
    ensures var t' := DoDrain(t, ks);
            && Mirrors(t') && t'.next == t.next && t.freed <= t'.freed
            && forall s :: s in t'.pending ==> s in t.pending && t'.pending[s] == t.pending[s]
    decreases |ks|
  {
    if ks != [] {
      DrainMirrors(t, ks[..|ks| - 1]);
      ReapMirrors(DoDrain(t, ks[..|ks| - 1]), ks[|ks| - 1]);
    }
  }

  /**
    * Closing frees each allocation ever made exactly once, and no other address: those freed
    * before stay freed, the drain and the last sweep free the others, none of them twice.
    */
  lemma ClosedMeansFreedOnce(t: Table, ks: seq<KernelReap>)
    requires Mirrors(t) && MayDrain(MarkUnlinked(t, t.pending.Keys), ks)
    ensures var t' := DoClose(t, ks);
            && t'.pending == map[] && t'.heap == map[] && t'.kernel == {}
            && t'.next == t.next && t.freed <= t'.freed
            && forall a: Addr :: t'.freed[a] == if a < t.next then 1 else 0
  {
    var t1 := DoCancel(t, ks);
    MarkUnlinkedMirrors(t, t.pending.Keys);
    DrainMirrors(MarkUnlinked(t, t.pending.Keys), ks);
    OwnedIsLive(t1);
  }

  lemma OwnedIsLive(t: Table)
    requires Linked(t)
    ensures Owned(t) == t.heap.Keys
  {
    forall a | a in t.heap
      ensures a in Owned(t)
    {
      assert t.pending[t.heap[a].seqnum].urb == a;
    }
  }

  // -------------------------------------------------------------- the device

  /** `UsbfsDevice`, as far as URBs in flight are concerned. */
  class UsbfsDevice {
    const dev: Device
    var pending: map<u32, Entry>
    var heap: map<Addr, PendingUrb>
    var kernel: set<Addr>
    var freed: multiset<Addr>
    var next: Addr
    var open: bool

    function View(): Table
      reads this
    {
      Table(pending, heap, kernel, freed, next)
    }

    ghost predicate Valid()
      reads this
    {
      Mirrors(View())
    }

    constructor (dev: Device)
      ensures Valid() && this.dev == dev && View() == EMPTY_TABLE && open
    {
      this.dev := dev;
      pending, heap, kernel, freed, next, open := map[], map[], {}, multiset{}, 0, true;
    }

    method Submit(req: UrbRequest, k: Ioctl) returns (r: SubmitResult)
      requires Valid()
      modifies this
      ensures Valid() && open == old(open)
      ensures View() == DoSubmit(dev, old(View()), req, k).0 && r == DoSubmit(dev, old(View()), req, k).1
    {
      SubmitMirrors(dev, View(), req, k);
      assert next !in heap;
      r := SubmitLocked(req, k);
    }

    /** What `submit` does while it holds the table's lock. */
    method SubmitLocked(req: UrbRequest, k: Ioctl) returns (r: SubmitResult)
      requires next !in heap
      modifies this
      ensures open == old(open)
      ensures View() == DoSubmit(dev, old(View()), req, k).0 && r == DoSubmit(dev, old(View()), req, k).1
    {
      var p := Prepare(dev, req);
      match p
      case Answered(a) => return a;
      case Intercepted(special) => return SpecialResult(special, k);
      case Built(u) =>
        if u.seqnum in pending {
          return Refused(-EBUSY);
        }
        var raw := next;
        next := next + 1;
        heap := heap[raw := u];
        if k.Errno? {
          heap := heap - {raw};
          assert heap == old(heap);
          freed := freed + multiset{raw};
          return SubmitErrno(k.errno);
        }
        kernel := kernel + {raw};
        pending := pending[u.seqnum := Entry(raw, false)];
        return Submitted;
    }

    method Unlink(seqnum: u32, landed: bool) returns (r: bool)
      requires Valid()
      modifies this
      ensures Valid() && open == old(open)
      ensures View() == DoUnlink(old(View()), seqnum, landed).0 && r == DoUnlink(old(View()), seqnum, landed).1
    {
      UnlinkMirrors(View(), seqnum, landed);
      r := UnlinkLocked(seqnum, landed);
    }

    method UnlinkLocked(seqnum: u32, landed: bool) returns (r: bool)
      modifies this
      ensures open == old(open)
      ensures View() == DoUnlink(old(View()), seqnum, landed).0 && r == DoUnlink(old(View()), seqnum, landed).1
    {
      if seqnum !in pending {
        return false;
      }
      pending := pending[seqnum := pending[seqnum].(unlinked := true)];
      r := landed;
    }

    method Reap(k: KernelReap) returns (r: Reaped)
      requires Valid() && KernelMay(View(), k)
      modifies this
      ensures Valid() && open == old(open)
      ensures View() == DoReap(old(View()), k).0 && r == DoReap(old(View()), k).1
    {
      ReapMirrors(View(), k);
      r := ReapLocked(k);
    }

    /** What `reap` does with what the kernel handed back. */
    method ReapLocked(k: KernelReap) returns (r: Reaped)
      requires KernelMay(View(), k)
      modifies this
      ensures open == old(open)
      ensures View() == DoReap(old(View()), k).0 && r == DoReap(old(View()), k).1
    {
      match k
      case Nothing => return NoneReady;
      case Failure => return ReapFailed;
      case Completes(a, status, actual, filled) =>
        kernel := kernel - {a};
        var u := heap[a];
        var unlinked := u.seqnum in pending && pending[u.seqnum].unlinked;
        pending := pending - {u.seqnum};
        var c := CompletionOf(u, status, actual, filled);
        heap := heap - {a};
        freed := freed + multiset{a};
        return Reaped(c, unlinked);
    }

    /**
      * `cancel_pending`. `polls` is how many times the drain loop gets round before its
      * deadline; which discards land and what completes (`ks`) is up to the kernel.
      */
    method CancelPending(polls: nat) returns (ghost ks: seq<KernelReap>)
      requires Valid()
      modifies this
      ensures Valid() && open == old(open) && next == old(next) && old(freed) <= freed
      ensures MayDrain(MarkUnlinked(old(View()), old(pending).Keys), ks) && View() == DoCancel(old(View()), ks)
      ensures forall s :: s in pending ==>
                s in old(pending) && pending[s] == Entry(old(pending)[s].urb, true)
    {
      UnlinkAll();
      ks := Drain(polls);
    }

    method UnlinkAll()
      requires Valid()
      modifies this
      ensures Valid() && open == old(open)
      ensures View() == MarkUnlinked(old(View()), old(pending).Keys)
    {
      ghost var t := View();
      MarkUnlinkedMirrors(t, pending.Keys);
      MarkEveryone();
    }

    method MarkEveryone()
      modifies this
      ensures open == old(open) && View() == MarkUnlinked(old(View()), old(pending).Keys)
    {
      ghost var t, done: set<u32> := View(), {};
      var todo := pending.Keys;
      while todo != {}
        invariant open == old(open) && View() == MarkUnlinked(t, done) && done + todo == t.pending.Keys
        decreases todo
      {
        var s :| s in todo;
        var landed: bool := *;
        MarkOneMore(t, done, s, landed);
        var _ := UnlinkLocked(s, landed);
        todo, done := todo - {s}, done + {s};
      }
    }

    method Drain(polls: nat) returns (ghost ks: seq<KernelReap>)
      requires Valid()
      modifies this
      ensures Valid() && open == old(open) && next == old(next) && old(freed) <= freed
      ensures MayDrain(old(View()), ks) && View() == DoDrain(old(View()), ks)
      ensures forall s :: s in pending ==> s in old(pending) && pending[s] == old(pending)[s]
    {
      ghost var t := View();
      ks := [];
      var left := polls;
      while left > 0 && pending != map[]
        invariant Valid() && open == old(open) && MayDrain(t, ks) && View() == DoDrain(t, ks)
      {
        left := left - 1;
        var k: KernelReap := *;
        if KernelMay(View(), k) {
          DrainOneMore(t, ks, k);
          ks := ks + [k];
          var r := Reap(k);
          if r.ReapFailed? {
            break;
          }
        }
      }
      DrainMirrors(t, ks);
    }

    /** `Drop`: once the descriptor is closed the kernel holds nothing, and the stragglers go. */
    method Close(polls: nat) returns (ghost ks: seq<KernelReap>)
      requires Valid()
      modifies this
      ensures !open && pending == map[] && heap == map[] && kernel == {} && next == old(next)
      ensures forall a: Addr :: freed[a] == if a < old(next) then 1 else 0
      ensures MayDrain(MarkUnlinked(old(View()), old(pending).Keys), ks) && View() == DoClose(old(View()), ks)
    {
      ghost var t := View();
      ks := CancelPending(polls);
      open := false;
      kernel := {};
      FreeStragglers();
      ClosedMeansFreedOnce(t, ks);
    }

    method FreeStragglers()
      requires Linked(View())
      modifies this`pending, this`heap, this`freed
      ensures View() == FreeAll(old(View()))
    {
      ghost var t := View();
      while pending != map[]
        invariant Linked(View()) && FreeAll(View()) == FreeAll(t)
        invariant kernel == old(kernel) && next == old(next)
        decreases |pending|
      {
        var s :| s in pending;
        FreeKeepsLinks(View(), s);
        FreeOneFirst(View(), s);
        FreeStraggler(s);
      }
      assert Owned(View()) == {};
      assert heap - {} == heap;
    }

    method FreeStraggler(s: u32)
      requires s in pending
      modifies this`pending, this`heap, this`freed
      ensures View() == Free(old(View()), s)
    {
      var a := pending[s].urb;
      pending := pending - {s};
      heap := heap - {a};
      freed := freed + multiset{a};
    }
  }
}
