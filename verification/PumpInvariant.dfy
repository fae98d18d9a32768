/**
  * What every step of the pump keeps. The invariant is a conjunction of statements about one
  * seqnum or one endpoint at a time, and each step is shown to keep it in its own lemma.
  */
module PumpInvariant {
  import opened Types
  import opened Pdu
  import opened Framing
  import opened Usbfs
  import opened Prefetch
  import opened Prefetcher
  import opened Pump

  /** How many RET_SUBMITs for `s` a reply log holds. */
  function Replies(log: seq<Reply>, s: u32): nat {
    if log == [] then 0
    else
      var last := log[|log| - 1];
      Replies(log[..|log| - 1], s) + (if last.RetSubmitted? && last.seqnum == s then 1 else 0)
  }

  lemma RepliesAppend(log: seq<Reply>, r: Reply, s: u32)
    ensures Replies(log + [r], s) == Replies(log, s) + (if r.RetSubmitted? && r.seqnum == s then 1 else 0)
  {
    assert (log + [r])[..|log|] == log;
  }

  predicate Sized(dev: Device, d: Bytes) {
    |d| <= dev.maxTransfer && |d| < 0x8000_0000
  }

  /** One submit is in exactly the place `fate` says, and nothing else is. */
  ghost predicate PlaceOk(st: State, s: u32) {
    && (s in st.fate <==> s in st.dirs)
    && (s in st.fate ==> s < INTERNAL_BASE)
    && ((s in st.fate && st.fate[s].InTable?) <==> (s < INTERNAL_BASE && Live(st, s)))
    && ((s in st.fate && st.fate[s].AtReader?) <==> HeldByReader(st.reader) == Some(s))
    && ((s in st.fate && st.fate[s].AtReaper?) <==> HeldByReaper(st.reaper) == Some(s))
    && Replies(st.log, s) == (if s in st.fate && st.fate[s].Replied? then 1 else 0)
  }

  ghost predicate WaitOk(fate: map<u32, Place>, p: Inner, s: u32, a: u8) {
    (s in fate && fate[s] == WaitingAt(a)) <==> WaitsFor(p, a, s)
  }

  /** One entry of the pending table. */
  ghost predicate EntryOk(dev: Device, st: State, s: u32) {
    s in st.table.pending && st.table.pending[s].urb in st.table.heap ==>
      var e := st.table.pending[s];
      var u := st.table.heap[e.urb];
      && (e.urb < st.since ==> e.unlinked && s in st.inherited)
      && (e.urb >= st.since && s >= INTERNAL_BASE ==> s < st.pf.next)
      && (e.urb >= st.since && e.unlinked && s < INTERNAL_BASE ==>
            s in st.fate && (st.fate[s].Cancelled? || (st.fate[s].Dropped? && st.phase.Cancelling?)))
      && (s < INTERNAL_BASE && Live(st, s) ==> s in st.dirs && u.dir == st.dirs[s])
      && u.maxReply <= dev.maxTransfer && u.maxReply < 0x8000_0000
      && (st.phase.Cancelling? ==> e.unlinked || s in st.phase.todo)
  }

  /** One prefetched endpoint is true to its history, or has not been armed yet. */
  ghost predicate HistoryOk(p: Inner, hist: map<u8, seq<Event>>, arming: bool, a: u8) {
    && (a in hist ==> a in p.eps && Consistent(p.eps[a], hist[a]))
    && (a in p.eps && a !in hist ==> arming && p.eps[a] == NewEndpoint(a, p.eps[a].maxPacket))
  }

  /** And its URB is really in flight. */
  ghost predicate EndpointOk(dev: Device, st: State, a: u8) {
    a in st.pf.eps ==>
      var e := st.pf.eps[a];
      && e.maxPacket < 0x1_0000
      && (forall r :: r in e.captured ==> Sized(dev, r))
      && (e.inFlight.Some? ==> InternalOk(st, e.inFlight.value))
      && (e.waiting.Some? ==> e.waiting.value.seqnum in st.dirs && st.dirs[e.waiting.value.seqnum].In?)
      && (!st.phase.Pumping? ==> e.disabled)
  }

  /** The URB an endpoint believes in flight: in the table, or in the reaper's hand. */
  ghost predicate InternalOk(st: State, q: u32) {
    && INTERNAL_BASE <= q < st.pf.next
    && (Live(st, q) || (st.reaper.Holding? && st.reaper.done.seqnum == q))
  }

  ghost predicate Apart(p: Inner, a: u8, b: u8) {
    a in p.eps && b in p.eps && a != b && p.eps[a].inFlight.Some? ==>
      p.eps[a].inFlight != p.eps[b].inFlight
  }

  ghost predicate ReplyOk(dev: Device, st: State, r: Reply) {
    && InFrame(r, st.dirs, dev.maxTransfer)
    && (r.RetUnlinked? ==> r.seqnum in st.unlinks && r.status == UnlinkStatus(st.unlinks[r.seqnum].found))
  }

  ghost predicate ReaderOk(dev: Device, st: State) {
    match st.reader
    case Taking(req) => req.dir.In? && RequestOk(dev, st, req)
    case Passing(req) => RequestOk(dev, st, req)
    case Unlinking(s, target) => target < INTERNAL_BASE && FreshSeqnum(st, s)
    case Discarding(s, target) =>
      target < INTERNAL_BASE && FreshSeqnum(st, s) && (target in st.fate ==> !st.fate[target].WaitingAt?)
    case Posting(reply) => ReplyOk(dev, st, reply)
    case _ => true
  }

  ghost predicate RequestOk(dev: Device, st: State, req: UrbRequest) {
    && req.seqnum in st.dirs && st.dirs[req.seqnum] == req.dir
    && req.bufferLength <= dev.maxTransfer && req.bufferLength < 0x8000_0000
  }

  ghost predicate ReaperOk(dev: Device, st: State) {
    match st.reaper
    case Holding(c, urb) =>
      && urb >= st.since && Sized(dev, c.data)
      && (c.seqnum >= INTERNAL_BASE ==> c.seqnum < st.pf.next)
      && (c.seqnum < INTERNAL_BASE ==>
            && c.seqnum in st.dirs
            && (if st.dirs[c.seqnum].In? then |c.data| == c.actualLength else c.data == []))
    case Owing(reply) => reply.RetSubmitted? && ReplyOk(dev, st, reply)
    case _ => true
  }

  /** What an unlink found settles its target for good, unless it hit a leftover of an earlier session. */
  ghost predicate UnlinkOk(unlinks: map<u32, Unlinked>, fate: map<u32, Place>, inherited: set<u32>, u: u32) {
    u in unlinks ==>
      var x := unlinks[u];
      x.target < INTERNAL_BASE &&
      match x.found
      case NotFound => true
      case WaiterDropped => x.target in fate && fate[x.target].Cancelled?
      case Marked(_, leftover) =>
        if leftover then x.target in inherited else x.target in fate && fate[x.target].Cancelled?
  }

  ghost predicate PhaseOk(st: State) {
    && (!st.phase.Pumping? ==> st.reader.Returned? && st.stop)
    && (st.phase.Cancelling? ==> st.reaper.Finished? && st.phase.todo <= st.table.pending.Keys)
    && st.since <= st.table.next
    && st.pf.next >= INTERNAL_BASE
    && (st.reader.Arming? ==> st.reaper.Polling? && st.fate == map[])
  }

  /** Everything said of one seqnum. */
  ghost predicate SeqOk(dev: Device, st: State, s: u32) {
    PlaceOk(st, s) && EntryOk(dev, st, s)
  }

  /** Everything said of the session as a whole. */
  ghost predicate Globals(dev: Device, st: State) {
    && PhaseOk(st) && ReaderOk(dev, st) && ReaperOk(dev, st)
    && (forall r :: r in st.log ==> ReplyOk(dev, st, r))
  }

  ghost predicate Waits(fate: map<u32, Place>, p: Inner) {
    forall s: u32, a: u8 :: WaitOk(fate, p, s, a)
  }

  ghost predicate Settled(unlinks: map<u32, Unlinked>, fate: map<u32, Place>, inherited: set<u32>) {
    forall u: u32 :: UnlinkOk(unlinks, fate, inherited, u)
  }

  ghost predicate AllApart(p: Inner) {
    forall a: u8, b: u8 :: Apart(p, a, b)
  }

  ghost predicate Histories(p: Inner, hist: map<u8, seq<Event>>, arming: bool) {
    forall a: u8 :: HistoryOk(p, hist, arming, a)
  }

  /** The invariant, less what the endpoints owe their histories. */
  ghost predicate Core(dev: Device, st: State) {
    && Mirrors(st.table) && Globals(dev, st)
    && (forall s: u32 :: SeqOk(dev, st, s))
    && (forall a: u8 :: EndpointOk(dev, st, a))
    && Waits(st.fate, st.pf) && Settled(st.unlinks, st.fate, st.inherited) && AllApart(st.pf)
  }

  ghost predicate Inv(dev: Device, st: State) {
    Core(dev, st) && Histories(st.pf, st.hist, st.reader.Arming?)
  }

  // ------------------------------------------------ the threads' own steps

  /** Steps that only change what the two threads are doing, without letting go of anything. */
  lemma HandsOnlyKeeps(dev: Device, st: State, reader: ReaderState, reaper: ReaperState)
    requires Inv(dev, st) && Globals(dev, st.(reader := reader, reaper := reaper))
    requires HeldByReader(reader) == HeldByReader(st.reader) && HeldByReaper(reaper) == HeldByReaper(st.reaper)
    requires st.reader.Arming? ==> reader.Arming? || st.hist.Keys == st.pf.eps.Keys
    requires st.reaper.Holding? ==> reaper == st.reaper || st.reaper.done.seqnum < INTERNAL_BASE
    ensures Inv(dev, st.(reader := reader, reaper := reaper))
  {
    var st' := st.(reader := reader, reaper := reaper);
    forall s: u32 ensures SeqOk(dev, st', s) { assert SeqOk(dev, st, s); }
    forall a: u8 ensures EndpointOk(dev, st', a) { assert EndpointOk(dev, st, a); }
    forall a: u8
      ensures HistoryOk(st'.pf, st'.hist, st'.reader.Arming?, a)
    {
      assert HistoryOk(st.pf, st.hist, st.reader.Arming?, a);
    }
  }

  /** The stop flag promises nothing but that a wind-down has raised it. */
  lemma RaiseKeeps(dev: Device, st: State)
    requires Inv(dev, st)
    ensures Inv(dev, Raise(st))
  {
    var st' := Raise(st);
    forall s: u32 ensures SeqOk(dev, st', s) { assert SeqOk(dev, st, s); }
    forall a: u8 ensures EndpointOk(dev, st', a) { assert EndpointOk(dev, st, a); }
  }

  lemma ReadSubmitSeqnum(dev: Device, st: State, c: Command, s: u32)
    requires c.header.body.BodyCmdSubmit? && FreshSeqnum(st, c.header.base.seqnum)
    requires st.reader.Reading? && SeqOk(dev, st, s)
    ensures SeqOk(dev, AfterRead(st, c), s)
  {
  }

  lemma ReadSubmitGlobals(dev: Device, st: State, c: Command)
    requires st.reader.Reading? && Acceptable(c, dev.maxTransfer) && c.header.body.BodyCmdSubmit?
    requires c.header.base.seqnum !in st.dirs && Globals(dev, st)
    ensures Globals(dev, AfterRead(st, c))
  {
  }

  lemma ReadSubmitKeeps(dev: Device, st: State, c: Command)
    requires Inv(dev, st) && st.reader.Reading? && Acceptable(c, dev.maxTransfer)
    requires c.header.body.BodyCmdSubmit? && FreshSeqnum(st, c.header.base.seqnum)
    ensures Inv(dev, AfterRead(st, c))
  {
    var st' := AfterRead(st, c);
    assert SeqOk(dev, st, c.header.base.seqnum);
    ReadSubmitGlobals(dev, st, c);
    forall s: u32 ensures SeqOk(dev, st', s) { ReadSubmitSeqnum(dev, st, c, s); }
    forall a: u8 ensures EndpointOk(dev, st', a) { assert EndpointOk(dev, st, a); }
    MovedKeeps(st, c.header.base.seqnum, AtReader, st'.fate);
  }

  /** Moving a submit that neither waited nor had been cancelled disturbs no waiter and no unlink. */
  lemma MovedKeeps(st: State, m: u32, to: Place, fate: map<u32, Place>)
    requires Waits(st.fate, st.pf) && Settled(st.unlinks, st.fate, st.inherited)
    requires m in st.fate ==> !st.fate[m].WaitingAt? && !st.fate[m].Cancelled?
    requires !to.WaitingAt? && fate == st.fate[m := to]
    ensures Waits(fate, st.pf) && Settled(st.unlinks, fate, st.inherited)
  {
    forall s: u32, a: u8 ensures WaitOk(fate, st.pf, s, a) { assert WaitOk(st.fate, st.pf, s, a); }
    forall u: u32
      ensures UnlinkOk(st.unlinks, fate, st.inherited, u)
    {
      assert UnlinkOk(st.unlinks, st.fate, st.inherited, u);
    }
  }

  /** Posting a reply from either hand, or giving up on it. */
  ghost predicate Posts(st: State, reply: Reply, reader: ReaderState, reaper: ReaperState) {
    || (st.reader == Posting(reply) && (reader.Reading? || reader.Returned?) && reaper == st.reaper)
    || (st.reaper == Owing(reply) && (reaper.Polling? || reaper.Finished?) && reader == st.reader)
  }

  lemma PostPlace(st: State, reply: Reply, sent: bool, reader: ReaderState, reaper: ReaperState, s: u32)
    requires Posts(st, reply, reader, reaper) && PlaceOk(st, s) && PlaceOk(st, reply.seqnum)
    ensures PlaceOk(AfterPost(st, reply, sent, reader, reaper), s)
  {
    RepliesAppend(st.log, reply, s);
  }

  lemma PostGlobals(dev: Device, st: State, reply: Reply, sent: bool, reader: ReaderState, reaper: ReaperState)
    requires Posts(st, reply, reader, reaper) && Globals(dev, st) && PlaceOk(st, reply.seqnum)
    ensures Globals(dev, AfterPost(st, reply, sent, reader, reaper))
  {
  }

  lemma PostEntry(dev: Device, st: State, reply: Reply, sent: bool, reader: ReaderState, reaper: ReaperState, s: u32)
    requires Posts(st, reply, reader, reaper) && EntryOk(dev, st, s) && PlaceOk(st, reply.seqnum)
    ensures EntryOk(dev, AfterPost(st, reply, sent, reader, reaper), s)
  {
  }

  lemma PostEndpoint(dev: Device, st: State, reply: Reply, sent: bool, reader: ReaderState, reaper: ReaperState, a: u8)
    requires Posts(st, reply, reader, reaper) && EndpointOk(dev, st, a)
    ensures EndpointOk(dev, AfterPost(st, reply, sent, reader, reaper), a)
  {
  }

  lemma PostKeeps(dev: Device, st: State, reply: Reply, sent: bool, reader: ReaderState, reaper: ReaperState)
    requires Inv(dev, st) && Posts(st, reply, reader, reaper)
    ensures Inv(dev, AfterPost(st, reply, sent, reader, reaper))
  {
    var st' := AfterPost(st, reply, sent, reader, reaper);
    assert SeqOk(dev, st, reply.seqnum);
    PostGlobals(dev, st, reply, sent, reader, reaper);
    forall s: u32
      ensures SeqOk(dev, st', s)
    {
      assert SeqOk(dev, st, s);
      PostPlace(st, reply, sent, reader, reaper, s);
      PostEntry(dev, st, reply, sent, reader, reaper, s);
    }
    forall a: u8 ensures EndpointOk(dev, st', a) {
      assert EndpointOk(dev, st, a);
      PostEndpoint(dev, st, reply, sent, reader, reaper, a);
    }
    if reply.RetSubmitted? {
      MovedKeeps(st, reply.seqnum, if sent then Replied else Dropped, st'.fate);
    }
  }

  // ------------------------------------------------------ submit and unlink

  /** A client submit adds its own entry, or changes nothing that matters. */
  ghost predicate SubmittedTo(req: UrbRequest, t: Table, t': Table, r: SubmitResult) {
    && Mirrors(t') && t'.next >= t.next
    && (if r.Submitted? then
          && req.seqnum !in t.pending
          && t'.pending == t.pending[req.seqnum := Entry(t.next, false)]
          && t.next in t'.heap && t'.heap == t.heap[t.next := t'.heap[t.next]]
          && t'.heap[t.next].dir == req.dir && t'.heap[t.next].maxReply == req.bufferLength
        else
          t'.pending == t.pending && t'.heap == t.heap)
  }

  lemma SubmitEffect(dev: Device, t: Table, req: UrbRequest, k: Ioctl)
    requires Mirrors(t)
    ensures SubmittedTo(req, t, DoSubmit(dev, t, req, k).0, DoSubmit(dev, t, req, k).1)
  {
    SubmitMirrors(dev, t, req, k);
    if Prepare(dev, req).Built? {
      EnqueueEffect(t, Prepare(dev, req).urb, k);
    }
  }

  lemma EnqueueEffect(t: Table, u: PendingUrb, k: Ioctl)
    ensures var (t', r) := Enqueue(t, u, k);
            && t'.next >= t.next
            && (if r.Submitted? then
                  && u.seqnum !in t.pending
                  && t'.pending == t.pending[u.seqnum := Entry(t.next, false)] && t'.heap == t.heap[t.next := u]
                else
                  t'.pending == t.pending && t'.heap == t.heap)
  {
  }

  ghost predicate EntryLinked(t: Table, s: u32) {
    s in t.pending ==> t.pending[s].urb in t.heap && t.heap[t.pending[s].urb].seqnum == s
  }

  lemma SubmitSeqnum(dev: Device, st: State, req: UrbRequest, t: Table, r: SubmitResult, s: u32)
    requires ReaderOk(dev, st) && SubmittedTo(req, st.table, t, r) && st.since <= st.table.next
    requires EntryLinked(st.table, s) && (s in st.table.pending ==> st.table.pending[s].urb < st.table.next)
    requires st.reader == Passing(req) && SeqOk(dev, st, s) && PlaceOk(st, req.seqnum)
    requires st.phase.Pumping?
    ensures SeqOk(dev, Submitting(st, req, t, r), s)
  {
  }

  lemma SubmitEndpoint(dev: Device, st: State, req: UrbRequest, t: Table, r: SubmitResult, a: u8)
    requires SubmittedTo(req, st.table, t, r) && st.reader == Passing(req) && PlaceOk(st, req.seqnum)
    requires EndpointOk(dev, st, a)
    ensures EndpointOk(dev, Submitting(st, req, t, r), a)
  {
  }

  lemma SubmitGlobals(dev: Device, st: State, req: UrbRequest, t: Table, r: SubmitResult)
    requires Globals(dev, st) && PlaceOk(st, req.seqnum)
    requires SubmittedTo(req, st.table, t, r) && st.reader == Passing(req)
    ensures Globals(dev, Submitting(st, req, t, r))
  {
  }

  lemma SubmitKeeps(dev: Device, st: State, req: UrbRequest, t: Table, r: SubmitResult)
    requires Inv(dev, st) && st.reader == Passing(req) && SubmittedTo(req, st.table, t, r)
    ensures Inv(dev, Submitting(st, req, t, r))
  {
    var st' := Submitting(st, req, t, r);
    assert SeqOk(dev, st, req.seqnum);
    SubmitGlobals(dev, st, req, t, r);
    forall s: u32 ensures SeqOk(dev, st', s) {
      assert SeqOk(dev, st, s);
      SubmitSeqnum(dev, st, req, t, r, s);
    }
    forall a: u8 ensures EndpointOk(dev, st', a) {
      assert EndpointOk(dev, st, a);
      SubmitEndpoint(dev, st, req, t, r, a);
    }
    var to := if r.Submitted? then InTable else Dropped;
    MovedKeeps(st, req.seqnum, to, st.fate[req.seqnum := to]);
  }

  lemma UnlinkWaiterSeqnum(dev: Device, st: State, a: u8, s: u32)
    requires st.reader.Unlinking? && WaitsFor(st.pf, a, st.reader.target)
    requires WaitOk(st.fate, st.pf, st.reader.target, a) && SeqOk(dev, st, s)
    ensures SeqOk(dev, AfterUnlinkWaiter(st, Some(a)), s)
  {
  }

  lemma UnlinkWaiterKeeps(dev: Device, st: State, a: u8)
    requires Inv(dev, st) && st.reader.Unlinking? && WaitsFor(st.pf, a, st.reader.target)
    ensures Inv(dev, AfterUnlinkWaiter(st, Some(a)))
  {
    var st' := AfterUnlinkWaiter(st, Some(a));
    var target := st.reader.target;
    assert SeqOk(dev, st, target) && WaitOk(st.fate, st.pf, target, a);
    forall s: u32 ensures SeqOk(dev, st', s) {
      assert SeqOk(dev, st, s);
      UnlinkWaiterSeqnum(dev, st, a, s);
    }
    forall b: u8 ensures EndpointOk(dev, st', b) { assert EndpointOk(dev, st, b); }
    UnlinkWaiterWaits(dev, st, a);
  }

  lemma UnlinkWaiterWaits(dev: Device, st: State, a: u8)
    requires st.reader.Unlinking? && st.reader.target < INTERNAL_BASE && st.reader.seqnum !in st.unlinks
    requires WaitsFor(st.pf, a, st.reader.target)
    requires Waits(st.fate, st.pf) && Settled(st.unlinks, st.fate, st.inherited) && AllApart(st.pf)
    requires Histories(st.pf, st.hist, st.reader.Arming?)
    ensures var st' := AfterUnlinkWaiter(st, Some(a));
            && Waits(st'.fate, st'.pf) && Settled(st'.unlinks, st'.fate, st'.inherited) && AllApart(st'.pf)
            && Histories(st'.pf, st'.hist, st'.reader.Arming?)
  {
    var st' := AfterUnlinkWaiter(st, Some(a));
    var target := st.reader.target;
    forall s: u32, b: u8
      ensures WaitOk(st'.fate, st'.pf, s, b)
    {
      assert WaitOk(st.fate, st.pf, s, b) && WaitOk(st.fate, st.pf, target, b) && WaitOk(st.fate, st.pf, target, a);
    }
    forall u: u32 ensures UnlinkOk(st'.unlinks, st'.fate, st'.inherited, u) {
      assert UnlinkOk(st.unlinks, st.fate, st.inherited, u);
    }
    forall b: u8, c: u8 ensures Apart(st'.pf, b, c) { assert Apart(st.pf, b, c); }
    forall b: u8
      ensures HistoryOk(st'.pf, st'.hist, st'.reader.Arming?, b)
    {
      assert HistoryOk(st.pf, st.hist, st.reader.Arming?, b);
    }
  }

  /** The prefetcher had no such waiter, so neither has it any place in `fate` as one. */
  lemma UnlinkMissKeeps(dev: Device, st: State)
    requires Inv(dev, st) && st.reader.Unlinking? && forall a :: !WaitsFor(st.pf, a, st.reader.target)
    ensures Inv(dev, AfterUnlinkWaiter(st, None))
  {
    var target := st.reader.target;
    forall a: u8
      ensures !(target in st.fate && st.fate[target] == WaitingAt(a))
    {
      assert WaitOk(st.fate, st.pf, target, a) && !WaitsFor(st.pf, a, target);
    }
    HandsOnlyKeeps(dev, st, Discarding(st.reader.seqnum, target), st.reaper);
  }

  lemma UnlinkDevicePlace(st: State, landed: bool, s: u32)
    requires st.reader.Discarding? && st.reader.target < INTERNAL_BASE
    requires PlaceOk(st, s) && PlaceOk(st, st.reader.target)
    requires var s := st.reader.target;
             Own(st, s) ==> s in st.fate && (Live(st, s) || st.fate[s].Cancelled?)
    ensures PlaceOk(AfterUnlinkDevice(st, landed), s)
  {
  }

  lemma UnlinkDeviceEntry(dev: Device, st: State, landed: bool, s: u32)
    requires st.reader.Discarding? && st.reader.target < INTERNAL_BASE && st.phase.Pumping?
    requires PlaceOk(st, s) && EntryOk(dev, st, s) && EntryLinked(st.table, s)
    ensures EntryOk(dev, AfterUnlinkDevice(st, landed), s)
  {
  }

  lemma UnlinkDeviceEndpoint(dev: Device, st: State, landed: bool, a: u8)
    requires st.reader.Discarding? && st.reader.target < INTERNAL_BASE && EndpointOk(dev, st, a)
    ensures EndpointOk(dev, AfterUnlinkDevice(st, landed), a)
  {
  }

  lemma UnlinkDeviceGlobals(dev: Device, st: State, landed: bool)
    requires st.reader.Discarding? && Globals(dev, st)
    ensures Globals(dev, AfterUnlinkDevice(st, landed))
  {
  }

  /** An entry of this session's own is a submit still to be answered, or one cancelled before. */
  lemma OwnTarget(dev: Device, st: State, target: u32)
    requires SeqOk(dev, st, target) && EntryLinked(st.table, target) && st.phase.Pumping?
    requires target < INTERNAL_BASE && Own(st, target)
    ensures target in st.fate && (st.fate[target].InTable? || st.fate[target].Cancelled?)
  {
  }

  lemma UnlinkDeviceKeeps(dev: Device, st: State, landed: bool)
    requires Inv(dev, st) && st.reader.Discarding?
    ensures Inv(dev, AfterUnlinkDevice(st, landed))
  {
    var st' := AfterUnlinkDevice(st, landed);
    var target := st.reader.target;
    UnlinkMirrors(st.table, target, landed);
    assert SeqOk(dev, st, target);
    if Own(st, target) {
      OwnTarget(dev, st, target);
    }
    UnlinkDeviceGlobals(dev, st, landed);
    forall s: u32 ensures SeqOk(dev, st', s) {
      assert SeqOk(dev, st, s);
      UnlinkDevicePlace(st, landed, s);
      UnlinkDeviceEntry(dev, st, landed, s);
    }
    forall a: u8 ensures EndpointOk(dev, st', a) {
      assert EndpointOk(dev, st, a);
      UnlinkDeviceEndpoint(dev, st, landed, a);
    }
    UnlinkDeviceSettles(dev, st, landed);
  }

  lemma UnlinkDeviceSettles(dev: Device, st: State, landed: bool)
    requires st.reader.Discarding? && st.reader.target < INTERNAL_BASE && FreshSeqnum(st, st.reader.seqnum)
    requires Own(st, st.reader.target) ==> st.reader.target in st.fate && !st.fate[st.reader.target].WaitingAt?
    requires st.reader.target in st.table.pending && !Own(st, st.reader.target) ==> st.reader.target in st.inherited
    requires Waits(st.fate, st.pf) && Settled(st.unlinks, st.fate, st.inherited)
    ensures var st' := AfterUnlinkDevice(st, landed);
            Waits(st'.fate, st'.pf) && Settled(st'.unlinks, st'.fate, st'.inherited)
  {
    var st' := AfterUnlinkDevice(st, landed);
    forall s: u32, b: u8 ensures WaitOk(st'.fate, st'.pf, s, b) { assert WaitOk(st.fate, st.pf, s, b); }
    forall u: u32 ensures UnlinkOk(st'.unlinks, st'.fate, st'.inherited, u) {
      assert UnlinkOk(st.unlinks, st.fate, st.inherited, u);
    }
  }

  // --------------------------------------------------------------- reaping

  /** What a successful reap did: entry `c.seqnum` and its allocation are gone, and `c` fits its URB. */
  ghost predicate ReapedTo(st: State, t: Table, c: Completion, unlinked: bool, urb: Addr) {
    && c.seqnum in st.table.pending && st.table.pending[c.seqnum] == Entry(urb, unlinked)
    && urb in st.table.heap
    && Mirrors(t) && t.next == st.table.next
    && t.pending == st.table.pending - {c.seqnum} && t.heap == st.table.heap - {urb}
    && |c.data| <= st.table.heap[urb].maxReply
    && (if st.table.heap[urb].dir.In? then |c.data| == c.actualLength else c.data == [])
  }

  lemma ReapEffect(st: State, k: KernelReap)
    requires Mirrors(st.table) && KernelMay(st.table, k) && k.Completes?
    ensures var (t, x) := DoReap(st.table, k);
            x.Reaped? && ReapedTo(st, t, x.completion, x.unlinked, k.urb)
  {
    ReapMirrors(st.table, k);
  }

  lemma ReapSeqnum(dev: Device, st: State, t: Table, c: Completion, unlinked: bool, urb: Addr, s: u32)
    requires ReapedTo(st, t, c, unlinked, urb) && st.reaper.Polling?
    requires EntryLinked(st.table, s) && (s in st.table.pending && st.table.pending[s].urb == urb ==> s == c.seqnum)
    requires SeqOk(dev, st, s) && SeqOk(dev, st, c.seqnum)
    ensures SeqOk(dev, Reaping(st, t, c, unlinked, urb), s)
  {
  }

  lemma ReapEndpoint(dev: Device, st: State, t: Table, c: Completion, unlinked: bool, urb: Addr, a: u8)
    requires ReapedTo(st, t, c, unlinked, urb) && st.reaper.Polling?
    requires EndpointOk(dev, st, a) && SeqOk(dev, st, c.seqnum)
    ensures EndpointOk(dev, Reaping(st, t, c, unlinked, urb), a)
  {
  }

  lemma ReapGlobals(dev: Device, st: State, t: Table, c: Completion, unlinked: bool, urb: Addr)
    requires ReapedTo(st, t, c, unlinked, urb) && st.reaper.Polling? && !st.reader.Arming?
    requires Globals(dev, st) && SeqOk(dev, st, c.seqnum)
    ensures Globals(dev, Reaping(st, t, c, unlinked, urb))
  {
  }

  lemma ReapKeeps(dev: Device, st: State, t: Table, c: Completion, unlinked: bool, urb: Addr)
    requires Inv(dev, st) && ReapedTo(st, t, c, unlinked, urb) && st.reaper.Polling? && !st.reader.Arming?
    ensures Inv(dev, Reaping(st, t, c, unlinked, urb))
  {
    var st' := Reaping(st, t, c, unlinked, urb);
    assert SeqOk(dev, st, c.seqnum);
    ReapGlobals(dev, st, t, c, unlinked, urb);
    forall s: u32 ensures SeqOk(dev, st', s) {
      assert SeqOk(dev, st, s);
      ReapSeqnum(dev, st, t, c, unlinked, urb, s);
    }
    forall a: u8 ensures EndpointOk(dev, st', a) {
      assert EndpointOk(dev, st, a);
      ReapEndpoint(dev, st, t, c, unlinked, urb, a);
    }
    if !unlinked && !Owns(c.seqnum) {
      MovedKeeps(st, c.seqnum, AtReaper, st'.fate);
    }
  }

  // ------------------------------------------------------------ arming

  /** What an attempt to arm endpoint `a` amounts to: nothing, or exactly one new entry. */
  ghost predicate ArmedTo(dev: Device, st: State, p: Inner, t: Table, a: u8, r: SubmitResult) {
    && a in st.pf.eps && !r.Handled?
    && p.eps == st.pf.eps[a := Arm(st.pf.eps[a], st.pf.next, r)]
    && Mirrors(t) && t.next >= st.table.next
    && (if WantsUrb(st.pf.eps[a]) && r.Submitted? then
          && st.pf.next !in st.table.pending && p.next == st.pf.next + 1
          && t.pending == st.table.pending[st.pf.next := Entry(st.table.next, false)]
          && st.table.next in t.heap && t.heap == st.table.heap[st.table.next := t.heap[st.table.next]]
          && t.heap[st.table.next].maxReply == st.pf.eps[a].maxPacket <= dev.maxTransfer
        else
          p.next == st.pf.next && t.pending == st.table.pending && t.heap == st.table.heap)
  }

  lemma ArmEffect(dev: Device, st: State, a: u8, k: Ioctl)
    requires Mirrors(st.table) && INTERNAL_BASE <= st.pf.next < 0xffff_ffff && a in st.pf.eps
    ensures var st' := ArmState(dev, st, a, k);
            ArmedTo(dev, st, st'.pf, st'.table, a, ArmResult(dev, st.pf, st.table, a, k))
  {
    InternalSubmitNotHandled(dev, st.pf, st.table, a, k);
    assert st.pf.eps[a := st.pf.eps[a]] == st.pf.eps;
    SubmitEffect(dev, st.table, InternalRequest(st.pf.eps[a], st.pf.next), k);
    SubmittedFits(dev, st.table, InternalRequest(st.pf.eps[a], st.pf.next), k);
  }

  lemma SubmittedFits(dev: Device, t: Table, req: UrbRequest, k: Ioctl)
    ensures DoSubmit(dev, t, req, k).1.Submitted? ==> req.bufferLength <= dev.maxTransfer
  {
  }

  lemma ArmSeqnum(dev: Device, st: State, p: Inner, t: Table, a: u8, r: SubmitResult, s: u32)
    requires ArmedTo(dev, st, p, t, a, r) && INTERNAL_BASE <= st.pf.next && st.since <= st.table.next
    requires EndpointOk(dev, st, a) && SeqOk(dev, st, s)
    requires EntryLinked(st.table, s) && (s in st.table.pending ==> st.table.pending[s].urb < st.table.next)
    ensures SeqOk(dev, st.(pf := p, table := t), s)
  {
  }

  lemma ArmEndpoint(dev: Device, st: State, p: Inner, t: Table, a: u8, r: SubmitResult, b: u8)
    requires ArmedTo(dev, st, p, t, a, r) && INTERNAL_BASE <= st.pf.next && st.since <= st.table.next
    requires EndpointOk(dev, st, b)
    ensures EndpointOk(dev, st.(pf := p, table := t), b)
  {
  }

  lemma ArmRest(dev: Device, st: State, p: Inner, t: Table, a: u8, r: SubmitResult)
    requires ArmedTo(dev, st, p, t, a, r) && Globals(dev, st)
    requires Waits(st.fate, st.pf) && AllApart(st.pf) && forall b: u8 :: EndpointOk(dev, st, b)
    ensures Globals(dev, st.(pf := p, table := t)) && Waits(st.fate, p) && AllApart(p)
  {
    forall s: u32, b: u8 ensures WaitOk(st.fate, p, s, b) { assert WaitOk(st.fate, st.pf, s, b); }
    forall b: u8, c: u8
      ensures Apart(p, b, c)
    {
      assert Apart(st.pf, b, c) && EndpointOk(dev, st, b) && EndpointOk(dev, st, c);
    }
  }

  lemma ArmKeepsCore(dev: Device, st: State, p: Inner, t: Table, a: u8, r: SubmitResult)
    requires Core(dev, st) && ArmedTo(dev, st, p, t, a, r)
    ensures Core(dev, st.(pf := p, table := t))
  {
    var st' := st.(pf := p, table := t);
    ArmRest(dev, st, p, t, a, r);
    assert EndpointOk(dev, st, a);
    forall s: u32 ensures SeqOk(dev, st', s) {
      assert SeqOk(dev, st, s);
      ArmSeqnum(dev, st, p, t, a, r, s);
    }
    forall b: u8 ensures EndpointOk(dev, st', b) {
      assert EndpointOk(dev, st, b);
      ArmEndpoint(dev, st, p, t, a, r, b);
    }
  }

  /** The invariant says nothing of `hist` outside `Histories`. */
  lemma CoreIgnoresHistory(dev: Device, st: State, h: map<u8, seq<Event>>)
    requires Core(dev, st)
    ensures Core(dev, st.(hist := h))
  {
    var st' := st.(hist := h);
    forall s: u32 ensures SeqOk(dev, st', s) { assert SeqOk(dev, st, s); }
    forall b: u8 ensures EndpointOk(dev, st', b) { assert EndpointOk(dev, st, b); }
  }

  lemma FirstArmKeeps(dev: Device, st: State, p: Inner, t: Table, a: u8, r: SubmitResult)
    requires Inv(dev, st) && st.reader.Arming? && a !in st.hist && ArmedTo(dev, st, p, t, a, r)
    ensures Inv(dev, st.(pf := p, table := t, hist := st.hist[a := ArmEvents(st.pf.eps[a], r)]))
  {
    var h := st.hist[a := ArmEvents(st.pf.eps[a], r)];
    ArmKeepsCore(dev, st, p, t, a, r);
    CoreIgnoresHistory(dev, st.(pf := p, table := t), h);
    FirstArmHistories(dev, st, p, t, a, r);
    assert st.(pf := p, table := t).(hist := h) == st.(pf := p, table := t, hist := h);
  }

  lemma FirstArmHistories(dev: Device, st: State, p: Inner, t: Table, a: u8, r: SubmitResult)
    requires Histories(st.pf, st.hist, true) && a !in st.hist && ArmedTo(dev, st, p, t, a, r)
    ensures Histories(p, st.hist[a := ArmEvents(st.pf.eps[a], r)], true)
  {
    assert HistoryOk(st.pf, st.hist, true, a);
    FirstArmConsistent(a, st.pf.eps[a].maxPacket, st.pf.next, r);
    var h := st.hist[a := ArmEvents(st.pf.eps[a], r)];
    forall b: u8 ensures HistoryOk(p, h, true, b) { assert HistoryOk(st.pf, st.hist, true, b); }
  }

  /** Joins a step's two halves: the endpoint's own change, and the re-arm. */
  lemma RearmKeeps(dev: Device, st: State, mid: State, p: Inner, t: Table, a: u8, r: SubmitResult, h: seq<Event>)
    requires Histories(st.pf, st.hist, st.reader.Arming?) && Core(dev, mid) && ArmedTo(dev, mid, p, t, a, r)
    requires mid.hist == st.hist && (mid.reader.Arming? <==> st.reader.Arming?) && a in st.hist
    requires mid.pf.eps == st.pf.eps[a := mid.pf.eps[a]]
    requires Consistent(p.eps[a], h)
    ensures Inv(dev, mid.(pf := p, table := t, hist := st.hist[a := h]))
  {
    var hist := st.hist[a := h];
    ArmKeepsCore(dev, mid, p, t, a, r);
    CoreIgnoresHistory(dev, mid.(pf := p, table := t), hist);
    assert mid.(pf := p, table := t).(hist := hist) == mid.(pf := p, table := t, hist := hist);
    forall b: u8
      ensures HistoryOk(p, hist, mid.reader.Arming?, b)
    {
      assert HistoryOk(st.pf, st.hist, st.reader.Arming?, b);
    }
  }

  // ------------------------------------------------------------- take

  /** A reader that may consult endpoint `a`. */
  ghost predicate MayTake(st: State, req: UrbRequest) {
    && st.reader == Taking(req)
    && Address(req.ep, In) in st.pf.eps && !st.pf.eps[Address(req.ep, In)].disabled
  }

  lemma TakePlace(st: State, req: UrbRequest, s: u32)
    requires MayTake(st, req) && PlaceOk(st, req.seqnum) && PlaceOk(st, s)
    requires forall w: u32 :: WaitOk(st.fate, st.pf, w, Address(req.ep, In))
    ensures PlaceOk(MidTake(st, req), s)
  {
    assert WaitOk(st.fate, st.pf, s, Address(req.ep, In));
  }

  lemma TakeEntry(dev: Device, st: State, req: UrbRequest, s: u32)
    requires MayTake(st, req) && PlaceOk(st, req.seqnum) && EntryOk(dev, st, s)
    requires forall w: u32 :: WaitOk(st.fate, st.pf, w, Address(req.ep, In))
    ensures EntryOk(dev, MidTake(st, req), s)
  {
    assert WaitOk(st.fate, st.pf, s, Address(req.ep, In));
  }

  lemma TakeKeepsReports(e: Endpoint, w: Waiter)
    ensures var e' := TakeFrom(e, w).0;
            && e'.maxPacket == e.maxPacket && e'.inFlight == e.inFlight && e'.disabled == e.disabled
            && (e'.waiting == e.waiting || e'.waiting == Some(w))
            && forall r :: r in e'.captured ==> r in e.captured
  {
  }

  lemma TakeEndpoint(dev: Device, st: State, req: UrbRequest, b: u8)
    requires MayTake(st, req) && req.seqnum in st.dirs && st.dirs[req.seqnum].In? && EndpointOk(dev, st, b)
    requires st.phase.Pumping?
    ensures EndpointOk(dev, MidTake(st, req), b)
  {
    TakeKeepsReports(st.pf.eps[Address(req.ep, In)], Waiter(req.seqnum, req.bufferLength));
    TakeHands(st, req);
  }

  lemma TakeHands(st: State, req: UrbRequest)
    requires MayTake(st, req)
    ensures var st' := MidTake(st, req);
            && st' == st.(pf := st'.pf, reader := st'.reader, fate := st'.fate)
            && st'.pf == Taken(st.pf, Address(req.ep, In), Waiter(req.seqnum, req.bufferLength))
  {
  }

  lemma TakeGlobals(dev: Device, st: State, req: UrbRequest)
    requires MayTake(st, req) && Globals(dev, st) && EndpointOk(dev, st, Address(req.ep, In))
    requires PlaceOk(st, req.seqnum)
    ensures Globals(dev, MidTake(st, req))
  {
  }

  lemma TakeWaits(st: State, req: UrbRequest)
    requires MayTake(st, req) && req.seqnum in st.fate && st.fate[req.seqnum].AtReader?
    requires Waits(st.fate, st.pf) && Settled(st.unlinks, st.fate, st.inherited) && AllApart(st.pf)
    ensures var st' := MidTake(st, req);
            Waits(st'.fate, st'.pf) && Settled(st'.unlinks, st'.fate, st'.inherited) && AllApart(st'.pf)
  {
    var a := Address(req.ep, In);
    var st' := MidTake(st, req);
    if st.pf.eps[a].waiting.Some? {
      assert WaitOk(st.fate, st.pf, st.pf.eps[a].waiting.value.seqnum, a);
    }
    forall s: u32, b: u8
      ensures WaitOk(st'.fate, st'.pf, s, b)
    {
      assert WaitOk(st.fate, st.pf, s, b) && WaitOk(st.fate, st.pf, s, a) && WaitOk(st.fate, st.pf, req.seqnum, b);
    }
    forall u: u32 ensures UnlinkOk(st'.unlinks, st'.fate, st'.inherited, u) {
      assert UnlinkOk(st.unlinks, st.fate, st.inherited, u);
    }
    forall b: u8, c: u8 ensures Apart(st'.pf, b, c) { assert Apart(st.pf, b, c); }
  }

  lemma TakeKeepsCore(dev: Device, st: State, req: UrbRequest)
    requires Core(dev, st) && MayTake(st, req)
    ensures Core(dev, MidTake(st, req))
  {
    var st' := MidTake(st, req);
    assert SeqOk(dev, st, req.seqnum) && EndpointOk(dev, st, Address(req.ep, In));
    TakeGlobals(dev, st, req);
    TakeWaits(st, req);
    forall s: u32 ensures SeqOk(dev, st', s) {
      assert SeqOk(dev, st, s);
      TakePlace(st, req, s);
      TakeEntry(dev, st, req, s);
    }
    forall b: u8 ensures EndpointOk(dev, st', b) {
      assert EndpointOk(dev, st, b);
      TakeEndpoint(dev, st, req, b);
    }
  }

  lemma TakeKeeps(dev: Device, st: State, req: UrbRequest, p: Inner, t: Table, r: SubmitResult, h: seq<Event>)
    requires Inv(dev, st) && MayTake(st, req) && ArmedTo(dev, MidTake(st, req), p, t, Address(req.ep, In), r)
    requires h == History(st, Address(req.ep, In)) + TakeEvents(st.pf.eps[Address(req.ep, In)])
                  + ArmEvents(MidTake(st, req).pf.eps[Address(req.ep, In)], r)
    ensures Inv(dev, MidTake(st, req).(pf := p, table := t, hist := st.hist[Address(req.ep, In) := h]))
  {
    var a := Address(req.ep, In);
    assert HistoryOk(st.pf, st.hist, st.reader.Arming?, a);
    TakeKeepsCore(dev, st, req);
    TakeFrame(st, req);
    TakeConsistent(st.pf.eps[a], st.hist[a], Waiter(req.seqnum, req.bufferLength), st.pf.next, r);
    RearmKeeps(dev, st, MidTake(st, req), p, t, a, r, h);
  }

  lemma TakeFrame(st: State, req: UrbRequest)
    requires MayTake(st, req)
    ensures var mid, a := MidTake(st, req), Address(req.ep, In);
            && mid.hist == st.hist && !mid.reader.Arming? && mid.pf.next == st.pf.next
            && mid.pf.eps == st.pf.eps[a := mid.pf.eps[a]] && mid.table == st.table
            && mid.pf.eps[a] == TakeFrom(st.pf.eps[a], Waiter(req.seqnum, req.bufferLength)).0
  {
  }

  // ------------------------------------------------------------ deliver

  /** A completion of the URB endpoint `a` has in flight, in the reaper's hand. */
  ghost predicate MayDeliver(dev: Device, st: State, a: u8, c: Completion) {
    && st.reaper.Holding? && st.reaper.done.seqnum == c.seqnum >= INTERNAL_BASE && Sized(dev, c.data)
    && a in st.pf.eps && st.pf.eps[a].inFlight == Some(c.seqnum)
  }

  lemma DeliverPlace(dev: Device, st: State, a: u8, c: Completion, s: u32)
    requires MayDeliver(dev, st, a, c) && PlaceOk(st, s) && WaitOk(st.fate, st.pf, s, a)
    ensures PlaceOk(MidDeliver(st, a, c), s)
  {
  }

  lemma DeliverEntry(dev: Device, st: State, a: u8, c: Completion, s: u32)
    requires MayDeliver(dev, st, a, c) && EntryOk(dev, st, s) && WaitOk(st.fate, st.pf, s, a)
    ensures EntryOk(dev, MidDeliver(st, a, c), s)
  {
  }

  lemma DeliverEndpoint(dev: Device, st: State, a: u8, c: Completion, b: u8)
    requires MayDeliver(dev, st, a, c) && EndpointOk(dev, st, b) && Apart(st.pf, a, b)
    ensures EndpointOk(dev, MidDeliver(st, a, c), b)
  {
    CompleteKeepsReports(st.pf.eps[a], c.status, c.data);
    DeliverHands(st, a, c);
  }

  lemma CompleteKeepsReports(e: Endpoint, status: i32, data: Report)
    ensures var e' := Complete(e, status, data).0;
            && e'.maxPacket == e.maxPacket && e'.inFlight.None? && (e.disabled ==> e'.disabled) && e'.waiting.None?
            && forall r :: r in e'.captured ==> r in e.captured || r == data
  {
  }

  lemma DeliverHands(st: State, a: u8, c: Completion)
    requires a in st.pf.eps
    ensures var st' := MidDeliver(st, a, c);
            && st' == st.(pf := st'.pf, reaper := st'.reaper, fate := st'.fate)
            && st'.pf == Delivered(st.pf, a, c.status, c.data)
  {
  }

  lemma DeliverGlobals(dev: Device, st: State, a: u8, c: Completion)
    requires MayDeliver(dev, st, a, c) && Globals(dev, st) && EndpointOk(dev, st, a)
    requires forall w: u32 :: WaitOk(st.fate, st.pf, w, a)
    ensures Globals(dev, MidDeliver(st, a, c))
  {
    if st.pf.eps[a].waiting.Some? {
      assert WaitOk(st.fate, st.pf, st.pf.eps[a].waiting.value.seqnum, a);
    }
  }

  lemma DeliverWaits(dev: Device, st: State, a: u8, c: Completion)
    requires MayDeliver(dev, st, a, c)
    requires Waits(st.fate, st.pf) && Settled(st.unlinks, st.fate, st.inherited) && AllApart(st.pf)
    ensures var st' := MidDeliver(st, a, c);
            Waits(st'.fate, st'.pf) && Settled(st'.unlinks, st'.fate, st'.inherited) && AllApart(st'.pf)
  {
    var st' := MidDeliver(st, a, c);
    if st.pf.eps[a].waiting.Some? {
      assert WaitOk(st.fate, st.pf, st.pf.eps[a].waiting.value.seqnum, a);
    }
    forall s: u32, b: u8
      ensures WaitOk(st'.fate, st'.pf, s, b)
    {
      assert WaitOk(st.fate, st.pf, s, b) && WaitOk(st.fate, st.pf, s, a);
      if st.pf.eps[a].waiting.Some? {
        assert WaitOk(st.fate, st.pf, st.pf.eps[a].waiting.value.seqnum, b);
      }
    }
    forall u: u32 ensures UnlinkOk(st'.unlinks, st'.fate, st'.inherited, u) {
      assert UnlinkOk(st.unlinks, st.fate, st.inherited, u);
    }
    forall b: u8, d: u8 ensures Apart(st'.pf, b, d) { assert Apart(st.pf, b, d); }
  }

  lemma DeliverKeepsCore(dev: Device, st: State, a: u8, c: Completion)
    requires Core(dev, st) && MayDeliver(dev, st, a, c)
    ensures Core(dev, MidDeliver(st, a, c))
  {
    var st' := MidDeliver(st, a, c);
    assert EndpointOk(dev, st, a);
    DeliverGlobals(dev, st, a, c);
    DeliverWaits(dev, st, a, c);
    forall s: u32 ensures SeqOk(dev, st', s) {
      assert SeqOk(dev, st, s);
      DeliverPlace(dev, st, a, c, s);
      DeliverEntry(dev, st, a, c, s);
    }
    forall b: u8 ensures EndpointOk(dev, st', b) {
      assert EndpointOk(dev, st, b) && Apart(st.pf, a, b);
      DeliverEndpoint(dev, st, a, c, b);
    }
  }

  lemma DeliverFrame(st: State, a: u8, c: Completion)
    requires a in st.pf.eps
    ensures var mid := MidDeliver(st, a, c);
            && mid.hist == st.hist && mid.reader == st.reader && mid.pf.next == st.pf.next
            && mid.pf.eps == st.pf.eps[a := mid.pf.eps[a]] && mid.table == st.table
            && mid.pf.eps[a] == Complete(st.pf.eps[a], c.status, c.data).0
  {
  }

  lemma DeliverKeeps(dev: Device, st: State, a: u8, c: Completion, p: Inner, t: Table, r: SubmitResult, h: seq<Event>)
    requires Inv(dev, st) && MayDeliver(dev, st, a, c) && ArmedTo(dev, MidDeliver(st, a, c), p, t, a, r)
    requires !st.reader.Arming?
    requires h == History(st, a) + CompleteEvents(st.pf.eps[a], c.status, c.data)
                  + ArmEvents(MidDeliver(st, a, c).pf.eps[a], r)
    ensures Inv(dev, MidDeliver(st, a, c).(pf := p, table := t, hist := st.hist[a := h]))
  {
    assert HistoryOk(st.pf, st.hist, st.reader.Arming?, a);
    DeliverKeepsCore(dev, st, a, c);
    DeliverFrame(st, a, c);
    DeliverConsistent(st.pf.eps[a], st.hist[a], c.status, c.data, st.pf.next, r);
    RearmKeeps(dev, st, MidDeliver(st, a, c), p, t, a, r, h);
  }

  /** The completion's endpoint has been shut down meanwhile: nobody is owed anything. */
  lemma DeliverNoneKeeps(dev: Device, st: State)
    requires Inv(dev, st) && st.reaper.Holding? && Owns(st.reaper.done.seqnum)
    requires st.reaper.done.seqnum !in InFlight(st.pf)
    ensures Inv(dev, st.(reaper := Polling))
  {
    var st' := st.(reaper := Polling);
    forall s: u32 ensures SeqOk(dev, st', s) { assert SeqOk(dev, st, s); }
    forall a: u8 ensures EndpointOk(dev, st', a) { assert EndpointOk(dev, st, a); }
  }

  // --------------------------------------------------------- winding down

  lemma ShutdownSeqnum(dev: Device, st: State, s: u32)
    requires SeqOk(dev, st, s) && st.phase.Pumping? && EntryLinked(st.table, s)
    requires s in InFlight(st.pf) ==> s >= INTERNAL_BASE
    ensures SeqOk(dev, AfterShutdown(st), s)
  {
  }

  lemma ShutdownKeeps(dev: Device, st: State)
    requires Inv(dev, st) && st.phase.Pumping? && st.reader.Returned?
    ensures Inv(dev, AfterShutdown(st))
  {
    var st' := AfterShutdown(st);
    MarkUnlinkedMirrors(st.table, InFlight(st.pf));
    forall s: u32 ensures SeqOk(dev, st', s) {
      assert SeqOk(dev, st, s);
      InFlightIsInternal(dev, st, s);
      ShutdownSeqnum(dev, st, s);
    }
    forall a: u8 ensures EndpointOk(dev, st', a) { assert EndpointOk(dev, st, a); }
    ShutdownRest(st);
  }

  lemma InFlightIsInternal(dev: Device, st: State, s: u32)
    requires forall a: u8 :: EndpointOk(dev, st, a)
    ensures s in InFlight(st.pf) ==> s >= INTERNAL_BASE
  {
    if s in InFlight(st.pf) {
      var a :| a in st.pf.eps && st.pf.eps[a].inFlight == Some(s);
      assert EndpointOk(dev, st, a);
    }
  }

  lemma ShutdownRest(st: State)
    requires Waits(st.fate, st.pf) && Settled(st.unlinks, st.fate, st.inherited)
    requires Histories(st.pf, st.hist, st.reader.Arming?) && !st.reader.Arming?
    ensures var st' := AfterShutdown(st);
            && Waits(st'.fate, st'.pf) && Settled(st'.unlinks, st'.fate, st'.inherited) && AllApart(st'.pf)
            && Histories(st'.pf, st'.hist, st'.reader.Arming?)
  {
    var st' := AfterShutdown(st);
    forall u: u32 ensures UnlinkOk(st'.unlinks, st'.fate, st'.inherited, u) {
      assert UnlinkOk(st.unlinks, st.fate, st.inherited, u);
    }
    forall a: u8
      ensures HistoryOk(st'.pf, st'.hist, st'.reader.Arming?, a)
    {
      assert HistoryOk(st.pf, st.hist, st.reader.Arming?, a);
    }
  }

  lemma CancelStartKeeps(dev: Device, st: State)
    requires Inv(dev, st) && st.phase.Shutting? && st.reaper.Finished?
    ensures Inv(dev, st.(phase := Cancelling(st.table.pending.Keys)))
  {
    var st' := st.(phase := Cancelling(st.table.pending.Keys));
    forall s: u32 ensures SeqOk(dev, st', s) { assert SeqOk(dev, st, s); }
    forall a: u8 ensures EndpointOk(dev, st', a) { assert EndpointOk(dev, st, a); }
  }

  lemma CancelOneSeqnum(dev: Device, st: State, m: u32, landed: bool, s: u32)
    requires SeqOk(dev, st, s) && SeqOk(dev, st, m) && st.phase.Cancelling?
    requires EntryLinked(st.table, s)
    ensures SeqOk(dev, AfterCancelOne(st, m, landed), s)
  {
  }

  lemma CancelOneKeeps(dev: Device, st: State, m: u32, landed: bool)
    requires Inv(dev, st) && st.phase.Cancelling? && m in st.phase.todo
    ensures Inv(dev, AfterCancelOne(st, m, landed))
  {
    var st' := AfterCancelOne(st, m, landed);
    UnlinkMirrors(st.table, m, landed);
    assert SeqOk(dev, st, m);
    forall s: u32 ensures SeqOk(dev, st', s) {
      assert SeqOk(dev, st, s);
      CancelOneSeqnum(dev, st, m, landed, s);
    }
    forall a: u8 ensures EndpointOk(dev, st', a) {
      assert EndpointOk(dev, st, a);
      CancelEndpoint(dev, st, st', a);
    }
    if st'.fate != st.fate {
      MovedKeeps(st, m, Dropped, st'.fate);
    }
  }

  /** Past the shutdown an endpoint has nothing in flight, whatever becomes of the table. */
  lemma CancelEndpoint(dev: Device, st: State, st': State, a: u8)
    requires EndpointOk(dev, st, a) && Histories(st.pf, st.hist, false)
    requires !st.phase.Pumping? && !st'.phase.Pumping?
    requires st'.pf == st.pf && st'.dirs == st.dirs
    ensures EndpointOk(dev, st', a)
  {
    assert HistoryOk(st.pf, st.hist, false, a);
  }

  lemma CancelReapSeqnum(dev: Device, st: State, t: Table, c: Completion, unlinked: bool, urb: Addr, s: u32)
    requires ReapedTo(st, t, c, unlinked, urb) && unlinked
    requires EntryLinked(st.table, s) && (s in st.table.pending && st.table.pending[s].urb == urb ==> s == c.seqnum)
    requires SeqOk(dev, st, s)
    ensures SeqOk(dev, st.(table := t), s)
  {
  }

  lemma CancelReapKeeps(dev: Device, st: State, t: Table, c: Completion, unlinked: bool, urb: Addr)
    requires Inv(dev, st) && ReapedTo(st, t, c, unlinked, urb)
    requires st.phase.Cancelling? && st.phase.todo == {}
    ensures Inv(dev, st.(table := t))
  {
    var st' := st.(table := t);
    assert SeqOk(dev, st, c.seqnum);
    forall s: u32 ensures SeqOk(dev, st', s) {
      assert SeqOk(dev, st, s);
      CancelReapSeqnum(dev, st, t, c, unlinked, urb, s);
    }
    forall a: u8 ensures EndpointOk(dev, st', a) {
      assert EndpointOk(dev, st, a);
      CancelEndpoint(dev, st, st', a);
    }
  }

  /** A table a session may find: the drain of the one before has marked every entry. */
  ghost predicate Drained(dev: Device, t: Table) {
    && Mirrors(t)
    && forall s :: s in t.pending ==> t.pending[s].unlinked && t.heap[t.pending[s].urb].maxReply <= dev.maxTransfer
                                      && t.heap[t.pending[s].urb].maxReply < 0x8000_0000
  }

  /** A session may start on any table whose every entry is already marked unlinked. */
  lemma SessionStartHolds(dev: Device, t: Table, endpoints: map<u8, u16>)
    requires Drained(dev, t)
    ensures Inv(dev, SessionStart(t, endpoints))
  {
    var st := SessionStart(t, endpoints);
    forall s: u32 ensures SeqOk(dev, st, s) {
    }
    forall s: u32, a: u8 ensures WaitOk(st.fate, st.pf, s, a) {
    }
  }
}
