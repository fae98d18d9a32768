/**
  * The URB pump of one exported device (crates/usbfwd-server/src/session.rs) as a state
  * machine: a reader thread, a reaper thread, the wind-down that follows them, and the next
  * session on the same device. Each call made under a lock is one step, and the steps of
  * reader and reaper interleave freely.
  *
  * `State` also carries history the code does not keep: where each submit of this session
  * has got to (`fate`), what each unlink found, and what happened on each endpoint.
  */
module Pump {
  import opened Types
  import opened Wire
  import opened Pdu
  import opened Framing
  import opened Usbfs
  import opened Prefetch
  import opened Prefetcher

  datatype ReaderState =
    | Arming                                    // session::run, before the threads start
    | Reading
    | Taking(req: UrbRequest)                   // an IN submit the prefetcher has yet to see
    | Passing(req: UrbRequest)                  // a submit on its way to the device
    | Unlinking(seqnum: u32, target: u32)       // the prefetcher is asked first,
    | Discarding(seqnum: u32, target: u32)      // and the device second
    | Posting(reply: Reply)
    | Returned

  datatype ReaperState =
    | Polling
    | Holding(done: Completion, urb: Addr)      // reaped but not yet posted
    | Owing(reply: Reply)
    | Finished

  datatype Phase = Pumping | Shutting | Cancelling(todo: set<u32>)

  /** Where a submit is, or what became of it. */
  datatype Place =
    | AtReader | InTable | WaitingAt(address: u8) | AtReaper
    | Replied | Cancelled | Superseded | Dropped

  datatype Found = NotFound | WaiterDropped | Marked(landed: bool, inherited: bool)

  datatype Unlinked = Unlinked(target: u32, found: Found)

  datatype State = State(
    table: Table, pf: Inner, reader: ReaderState, reaper: ReaperState, phase: Phase, stop: bool,
    since: Addr, inherited: set<u32>, fate: map<u32, Place>, dirs: map<u32, Direction>,
    log: seq<Reply>, unlinks: map<u32, Unlinked>, hist: map<u8, seq<Event>>)

  datatype Action =
    | ArmStep(address: u8, k: Ioctl)
    | Start
    | ReadSubmit(command: Command)
    | ReadUnlink(seqnum: u32, target: u32)
    | TakeStep(k: Ioctl)
    | SubmitStep(k: Ioctl)
    | UnlinkWaiter(at: Option<u8>)
    | UnlinkDevice(landed: bool)
    | ReaderPost(sent: bool)
    | ReaderExit
    | ReapStep(r: KernelReap)
    | DeliverStep(at: Option<u8>, swallow: bool, k: Ioctl)
    | ScreenStep(swallow: bool)
    | ReaperPost(sent: bool)
    | ReaperExit
    | WriterStops
    | ShutdownStep
    | CancelStart
    | CancelOne(s: u32, landed: bool)
    | CancelReap(r: KernelReap)
    | NextSession(endpoints: map<u8, u16>)

  // ------------------------------------------------------------- small parts

  /** `as i32` on a length. */
  function AsI32(n: nat): i32 {
    Signed(n % 0x1_0000_0000)
  }

  function ErrorReply(seqnum: u32, status: i32): Reply {
    RetSubmitted(seqnum, status, 0, [])
  }

  function DataReply(seqnum: u32, status: i32, data: Bytes): Reply {
    RetSubmitted(seqnum, status, AsI32(|data|), data)
  }

  /** `screen`: a good IN completion with the chord down is blanked, not dropped. */
  function Screen(c: Completion, swallow: bool): Completion {
    if swallow && c.status == 0 && c.data != [] then c.(data := [], actualLength := 0) else c
  }

  function CompletionReply(c: Completion): Reply {
    RetSubmitted(c.seqnum, c.status, AsI32(c.actualLength), c.data)
  }

  function UnlinkStatus(f: Found): i32 {
    if f.WaiterDropped? || (f.Marked? && f.landed) then -ECONNRESET else 0
  }

  predicate Own(st: State, s: u32) {
    s in st.table.pending && st.table.pending[s].urb >= st.since
  }

  /** An entry of this session whose completion will be reported. */
  predicate Live(st: State, s: u32) {
    Own(st, s) && !st.table.pending[s].unlinked
  }

  function HeldByReader(r: ReaderState): Option<u32> {
    match r
    case Taking(req) => Some(req.seqnum)
    case Passing(req) => Some(req.seqnum)
    case Posting(reply) => if reply.RetSubmitted? then Some(reply.seqnum) else None
    case _ => None
  }

  /** The client submit in the reaper's hand; an internal completion is nobody's yet. */
  function HeldByReaper(r: ReaperState): Option<u32> {
    match r
    case Holding(c, _) => if Owns(c.seqnum) then None else Some(c.seqnum)
    case Owing(reply) => if reply.RetSubmitted? then Some(reply.seqnum) else None
    case _ => None
  }

  function Move(st: State, s: u32, p: Place): map<u32, Place> {
    st.fate[s := p]
  }

  /** A waiter that a newer submit on the same endpoint displaces. */
  function Displace(st: State, address: u8): map<u32, Place> {
    if address in st.pf.eps && st.pf.eps[address].waiting.Some?
    then st.fate[st.pf.eps[address].waiting.value.seqnum := Superseded]
    else st.fate
  }

  predicate FreshSeqnum(st: State, s: u32) {
    s < INTERNAL_BASE && s !in st.fate && s !in st.unlinks
  }

  function FreshEndpoints(endpoints: map<u8, u16>): map<u8, Endpoint> {
    map a | a in endpoints :: NewEndpoint(a, endpoints[a])
  }

  // ------------------------------------------------------------------- steps

  /**
    * When a step can happen. Client seqnums are fresh and below the internal range, and a
    * session issues fewer than 2^31 internal URBs; both are what the source documents.
    */
  ghost predicate Enabled(dev: Device, st: State, act: Action) {
    match act
    case ArmStep(a, _) => st.reader.Arming? && a in st.pf.eps && a !in st.hist && st.pf.next < 0xffff_ffff
    case Start => st.reader.Arming? && st.hist.Keys == st.pf.eps.Keys
    case ReadSubmit(c) =>
      && st.reader.Reading? && Acceptable(c, dev.maxTransfer) && c.header.body.BodyCmdSubmit?
      && FreshSeqnum(st, c.header.base.seqnum)
    case ReadUnlink(s, target) => st.reader.Reading? && FreshSeqnum(st, s) && target < INTERNAL_BASE
    case TakeStep(_) => st.reader.Taking? && st.pf.next < 0xffff_ffff
    case SubmitStep(_) => st.reader.Passing?
    case UnlinkWaiter(at) =>
      && st.reader.Unlinking?
      && (at.Some? ==> WaitsFor(st.pf, at.value, st.reader.target))
      && (at.None? ==> forall a :: !WaitsFor(st.pf, a, st.reader.target))
    case UnlinkDevice(_) => st.reader.Discarding?
    case ReaderPost(_) => st.reader.Posting?
    case ReaderExit => st.reader.Reading?
    case ReapStep(r) => st.reaper.Polling? && !st.reader.Arming? && KernelMay(st.table, r)
    case DeliverStep(at, _, _) =>
      && st.reaper.Holding? && Owns(st.reaper.done.seqnum) && st.pf.next < 0xffff_ffff
      && (at.Some? ==> at.value in st.pf.eps && st.pf.eps[at.value].inFlight == Some(st.reaper.done.seqnum))
      && (at.None? ==> st.reaper.done.seqnum !in InFlight(st.pf))
    case ScreenStep(_) => st.reaper.Holding? && !Owns(st.reaper.done.seqnum)
    case ReaperPost(_) => st.reaper.Owing?
    case ReaperExit => st.reaper.Polling? && !st.reader.Arming?
    case WriterStops => !st.reader.Arming? && !st.stop
    case ShutdownStep => st.reader.Returned? && st.phase.Pumping?
    case CancelStart => st.phase.Shutting? && st.reaper.Finished?
    case CancelOne(s, _) => st.phase.Cancelling? && s in st.phase.todo
    case CancelReap(r) => st.phase.Cancelling? && st.phase.todo == {} && KernelMay(st.table, r)
    case NextSession(_) => st.phase.Cancelling? && st.phase.todo == {}
  }

  /** One submit of an internal URB: the first `arm` of a session, or the end of `take` and `deliver`. */
  function ArmState(dev: Device, st: State, a: u8, k: Ioctl): State {
    var (p, t) := ArmOne(dev, st.pf, st.table, a, k);
    st.(pf := p, table := t)
  }

  function AfterArm(dev: Device, st: State, a: u8, k: Ioctl): State
    requires a in st.pf.eps
  {
    ArmState(dev, st, a, k).(hist :=
      st.hist[a := ArmEvents(st.pf.eps[a], ArmResult(dev, st.pf, st.table, a, k))])
  }

  function AfterRead(st: State, c: Command): State
    requires c.header.body.BodyCmdSubmit?
  {
    var req := RequestOf(c);
    var next :=
      if c.header.body.submit.numberOfPackets > 0 then Posting(ErrorReply(req.seqnum, -EOPNOTSUPP))
      else if req.dir.In? then Taking(req)
      else Passing(req);
    st.(reader := next, fate := Move(st, req.seqnum, AtReader), dirs := st.dirs[req.seqnum := req.dir])
  }

  /** What the reader does with the answer `take` gives it. */
  function ReaderAfter(take: Take, req: UrbRequest): ReaderState {
    match take
    case PassThrough => Passing(req)
    case Ready(d) => Posting(DataReply(req.seqnum, 0, d))
    case Waiting => Reading
  }

  /** `take` before the re-arm: the endpoint has given a report up, or taken a waiter on. */
  function MidTake(st: State, req: UrbRequest): State
    requires Address(req.ep, In) in st.pf.eps
  {
    var a, w := Address(req.ep, In), Waiter(req.seqnum, req.bufferLength);
    var take := TakeFrom(st.pf.eps[a], w).1;
    st.(pf := Taken(st.pf, a, w), reader := ReaderAfter(take, req),
        fate := if take.Waiting? then Displace(st, a)[req.seqnum := WaitingAt(a)] else st.fate)
  }

  function AfterTake(dev: Device, st: State, req: UrbRequest, k: Ioctl): State {
    var a := Address(req.ep, In);
    if a !in st.pf.eps || st.pf.eps[a].disabled then st.(reader := Passing(req))
    else
      var mid := MidTake(st, req);
      ArmState(dev, mid, a, k).(hist :=
        st.hist[a := History(st, a) + TakeEvents(st.pf.eps[a])
                     + ArmEvents(mid.pf.eps[a], ArmResult(dev, mid.pf, mid.table, a, k))])
  }

  function History(st: State, a: u8): seq<Event> {
    if a in st.hist then st.hist[a] else []
  }

  /** What the reader does with the answer `submit` gives it. */
  function ReaderOnSubmit(r: SubmitResult, seqnum: u32): ReaderState {
    match r
    case Submitted => Reading
    case Refused(status) => Posting(ErrorReply(seqnum, status))
    case Handled(status) => Posting(ErrorReply(seqnum, status))
    case Fatal => Returned
  }

  /** The reader once the device has answered a submit with table `t` and result `r`. */
  function Submitting(st: State, req: UrbRequest, t: Table, r: SubmitResult): State {
    st.(table := t, reader := ReaderOnSubmit(r, req.seqnum),
        fate := if r.Submitted? then Move(st, req.seqnum, InTable)
                else if r.Fatal? then Move(st, req.seqnum, Dropped)
                else st.fate)
  }

  function AfterSubmit(dev: Device, st: State, req: UrbRequest, k: Ioctl): State {
    Submitting(st, req, DoSubmit(dev, st.table, req, k).0, DoSubmit(dev, st.table, req, k).1)
  }

  function RecordUnlink(st: State, s: u32, target: u32, f: Found): State {
    st.(reader := Posting(RetUnlinked(s, UnlinkStatus(f))), unlinks := st.unlinks[s := Unlinked(target, f)])
  }

  function AfterUnlinkWaiter(st: State, at: Option<u8>): State
    requires st.reader.Unlinking? && (at.Some? ==> at.value in st.pf.eps)
  {
    var s, target := st.reader.seqnum, st.reader.target;
    if at.None? then st.(reader := Discarding(s, target))
    else
      RecordUnlink(st.(pf := DropWaiter(st.pf, at.value), fate := Move(st, target, Cancelled)),
                   s, target, WaiterDropped)
  }

  /** What the device's table says of the target: gone, a leftover, or this session's own. */
  function WhatUnlinkFinds(st: State, target: u32, landed: bool): Found {
    if target !in st.table.pending then NotFound else Marked(landed, !Own(st, target))
  }

  function AfterUnlinkDevice(st: State, landed: bool): State
    requires st.reader.Discarding?
  {
    var target := st.reader.target;
    RecordUnlink(st.(table := DoUnlink(st.table, target, landed).0,
                     fate := if Own(st, target) then Move(st, target, Cancelled) else st.fate),
                 st.reader.seqnum, target, WhatUnlinkFinds(st, target, landed))
  }

  /** Posting a reply from either hand, or giving up on it. */
  function AfterPost(st: State, reply: Reply, sent: bool, reader: ReaderState, reaper: ReaperState): State {
    st.(reader := reader, reaper := reaper,
        log := if sent then st.log + [reply] else st.log,
        fate := if reply.RetUnlinked? then st.fate
                else Move(st, reply.seqnum, if sent then Replied else Dropped))
  }

  /** The reaper with a completion in hand; one already unlinked is let go of at once. */
  function Reaping(st: State, t: Table, c: Completion, unlinked: bool, urb: Addr): State {
    st.(table := t,
        reaper := if unlinked then st.reaper else Holding(c, urb),
        fate := if unlinked || Owns(c.seqnum) then st.fate else Move(st, c.seqnum, AtReaper))
  }

  /**
    * One reap. Finding nothing sends the reaper back to its outer loop, which ends once the stop
    * flag is up; a failure ends it at once.
    */
  function AfterReap(st: State, r: KernelReap): State
    requires KernelMay(st.table, r)
  {
    match DoReap(st.table, r).1
    case NoneReady => if st.stop then st.(reaper := Finished) else st
    case ReapFailed => Raise(st.(reaper := Finished))
    case Reaped(c, unlinked) => Reaping(st, DoReap(st.table, r).0, c, unlinked, r.urb)
  }

  /** Any thread that gives up raises the session's stop flag for the others. */
  function Raise(st: State): State {
    st.(stop := true)
  }

  /** What the reaper does with the answer `deliver` gives it. */
  function ReaperAfter(answer: Option<Answer>): ReaperState {
    match answer
    case None => Polling
    case Some(x) => Owing(DataReply(x.seqnum, x.status, x.data))
  }

  /** `deliver` before the re-arm. */
  function MidDeliver(st: State, a: u8, c: Completion): State
    requires a in st.pf.eps
  {
    var answer := Complete(st.pf.eps[a], c.status, c.data).1;
    st.(pf := Delivered(st.pf, a, c.status, c.data), reaper := ReaperAfter(answer),
        fate := if answer.Some? then Move(st, answer.value.seqnum, AtReaper) else st.fate)
  }

  function AfterDeliver(dev: Device, st: State, at: Option<u8>, c: Completion, k: Ioctl): State
    requires at.Some? ==> at.value in st.pf.eps
  {
    if at.None? then st.(reaper := Polling)
    else
      var a := at.value;
      var mid := MidDeliver(st, a, c);
      ArmState(dev, mid, a, k).(hist :=
        st.hist[a := History(st, a) + CompleteEvents(st.pf.eps[a], c.status, c.data)
                     + ArmEvents(mid.pf.eps[a], ArmResult(dev, mid.pf, mid.table, a, k))])
  }

  function AfterShutdown(st: State): State {
    st.(pf := ShutAll(st.pf), table := MarkUnlinked(st.table, InFlight(st.pf)), phase := Shutting, stop := true,
        fate := map s | s in st.fate :: if st.fate[s].WaitingAt? then Dropped else st.fate[s])
  }

  function AfterCancelOne(st: State, s: u32, landed: bool): State
    requires st.phase.Cancelling?
  {
    st.(table := DoUnlink(st.table, s, landed).0, phase := Cancelling(st.phase.todo - {s}),
        fate := if s in st.fate && st.fate[s].InTable? then Move(st, s, Dropped) else st.fate)
  }

  /** A session's first state on a device whose table is `t`. */
  function SessionStart(t: Table, endpoints: map<u8, u16>): State {
    State(t, Inner(FreshEndpoints(endpoints), INTERNAL_BASE), Arming, Polling, Pumping, false,
          t.next, t.pending.Keys, map[], map[], [], map[], map[])
  }

  ghost function Next(dev: Device, st: State, act: Action): State
    requires Enabled(dev, st, act)
  {
    match act
    case ArmStep(a, k) => AfterArm(dev, st, a, k)
    case Start => st.(reader := Reading)
    case ReadSubmit(c) => AfterRead(st, c)
    case ReadUnlink(s, target) => st.(reader := Unlinking(s, target))
    case TakeStep(k) => AfterTake(dev, st, st.reader.req, k)
    case SubmitStep(k) => AfterSubmit(dev, st, st.reader.req, k)
    case UnlinkWaiter(at) => AfterUnlinkWaiter(st, at)
    case UnlinkDevice(landed) => AfterUnlinkDevice(st, landed)
    case ReaderPost(sent) => AfterPost(st, st.reader.reply, sent, if sent then Reading else Returned, st.reaper)
    case ReaderExit => st.(reader := Returned)
    case ReapStep(r) => AfterReap(st, r)
    case DeliverStep(at, swallow, k) => AfterDeliver(dev, st, at, Screen(st.reaper.done, swallow), k)
    case ScreenStep(swallow) => st.(reaper := Owing(CompletionReply(Screen(st.reaper.done, swallow))))
    case ReaperPost(sent) =>
      if sent then AfterPost(st, st.reaper.reply, true, st.reader, Polling)
      else Raise(AfterPost(st, st.reaper.reply, false, st.reader, Finished))
    case ReaperExit => Raise(st.(reaper := Finished))
    case WriterStops => Raise(st)
    case ShutdownStep => AfterShutdown(st)
    case CancelStart => st.(phase := Cancelling(st.table.pending.Keys))
    case CancelOne(s, landed) => AfterCancelOne(st, s, landed)
    case CancelReap(r) => st.(table := DoReap(st.table, r).0)
    case NextSession(endpoints) => SessionStart(st.table, endpoints)
  }

  /** The compound steps change prefetcher and table exactly as the locked calls do, and act on what those return. */
  lemma TakeStepIsTheCall(dev: Device, st: State, req: UrbRequest, k: Ioctl)
    ensures var after := AfterTake(dev, st, req, k);
            var call := DoTake(dev, st.pf, st.table, Address(req.ep, In), Waiter(req.seqnum, req.bufferLength), k);
            after.pf == call.0 && after.table == call.1 && after.reader == ReaderAfter(call.2, req)
  {
    var a := Address(req.ep, In);
    if a in st.pf.eps && !st.pf.eps[a].disabled {
      assert MidTake(st, req).pf == Taken(st.pf, a, Waiter(req.seqnum, req.bufferLength));
    }
  }

  lemma DeliverStepIsTheCall(dev: Device, st: State, a: u8, c: Completion, k: Ioctl)
    requires a in st.pf.eps
    ensures var after := AfterDeliver(dev, st, Some(a), c, k);
            var call := DoDeliver(dev, st.pf, st.table, a, c.status, c.data, k);
            after.pf == call.0 && after.table == call.1 && after.reaper == ReaperAfter(call.2)
  {
    assert MidDeliver(st, a, c).pf == Delivered(st.pf, a, c.status, c.data);
  }

  /** Whole runs: from `st`, taking `acts` one after the other. */
  ghost predicate Runs(dev: Device, st: State, acts: seq<Action>)
    decreases |acts|
  {
    acts == [] || (Enabled(dev, st, acts[0]) && Runs(dev, Next(dev, st, acts[0]), acts[1..]))
  }

  ghost function After(dev: Device, st: State, acts: seq<Action>): State
    requires Runs(dev, st, acts)
    decreases |acts|
  {
    if acts == [] then st else After(dev, Next(dev, st, acts[0]), acts[1..])
  }

  function ArmSteps(order: seq<(u8, Ioctl)>): seq<Action> {
    if order == [] then [] else [ArmStep(order[0].0, order[0].1)] + ArmSteps(order[1..])
  }

  lemma ArmStepPlain(dev: Device, st: State, a: u8, k: Ioctl)
    requires a in st.pf.eps && INTERNAL_BASE <= st.pf.next < 0xffff_ffff
    ensures var st' := AfterArm(dev, st, a, k);
            && (st'.pf, st'.table) == ArmOne(dev, st.pf, st.table, a, k) && st'.reader == st.reader
            && st'.pf.eps.Keys == st.pf.eps.Keys && st'.hist.Keys == st.hist.Keys + {a}
            && st.pf.next <= st'.pf.next <= st.pf.next + 1
  {
  }

  /** The first `arm` of a session, step by step: the steps are a run, and they do what the call does. */
  lemma {:induction false} ArmStepsAreTheCall(dev: Device, st: State, order: seq<(u8, Ioctl)>)
    requires st.reader.Arming? && Walks(order, st.pf.eps.Keys - st.hist.Keys) && st.hist.Keys <= st.pf.eps.Keys
    requires INTERNAL_BASE <= st.pf.next <= 0xffff_ffff - |order|
    ensures Runs(dev, st, ArmSteps(order))
    ensures var st' := After(dev, st, ArmSteps(order));
            (st'.pf, st'.table) == ArmMany(dev, st.pf, st.table, order) && Enabled(dev, st', Start)
    decreases |order|
  {
    if order == [] {
      assert st.hist.Keys == Addresses(order) + st.hist.Keys == st.pf.eps.Keys;
    } else {
      var a, k := order[0].0, order[0].1;
      assert a in Addresses(order);
      var st1 := AfterArm(dev, st, a, k);
      ArmStepPlain(dev, st, a, k);
      assert ArmSteps(order)[1..] == ArmSteps(order[1..]);
      WalksRest(order, st.pf.eps.Keys - st.hist.Keys);
      assert st1.pf.eps.Keys - st1.hist.Keys == st.pf.eps.Keys - st.hist.Keys - {a};
      ArmStepsAreTheCall(dev, st1, order[1..]);
    }
  }

  lemma WalksRest(order: seq<(u8, Ioctl)>, addresses: set<u8>)
    requires order != [] && Walks(order, addresses)
    ensures Walks(order[1..], addresses - {order[0].0})
  {
    forall b | b in addresses && b != order[0].0
      ensures b in Addresses(order[1..])
    {
      var i :| 0 <= i < |order| && order[i].0 == b;
      assert order[1..][i - 1].0 == b;
    }
    forall i | 0 <= i < |order| - 1
      ensures order[1..][i].0 in addresses && order[1..][i].0 != order[0].0
    {
      assert order[i + 1].0 in Addresses(order);
    }
  }
}
