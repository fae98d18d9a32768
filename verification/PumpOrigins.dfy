/**
  * Where a client's answer comes from: from the command it sent, through the URB built for that
  * command and the kernel's buffer, to the completion in the reaper's hand
  * (crates/usbfwd-server/src/session.rs:160-352, crates/usb-backend/src/usbfs.rs:520-785).
  */
module PumpOrigins {
  import opened Types
  import opened Pdu
  import opened Framing
  import opened Usbfs
  import opened Prefetch
  import opened Prefetcher
  import opened Pump
  import opened PumpInvariant
  import opened PumpSafety
  import opened PumpAnswers
  import opened PumpWaiters
  import opened PumpLeftovers

  type Commands = map<u32, Command>

  /** The submits a run has read, by seqnum, added to those read before. */
  function ReadBy(cmds: Commands, acts: seq<Action>): Commands
    decreases |acts|
  {
    if acts == [] then cmds else ReadBy(Noted(cmds, acts[0]), acts[1..])
  }

  function Noted(cmds: Commands, act: Action): Commands {
    if act.ReadSubmit? then cmds[act.command.header.base.seqnum := act.command] else cmds
  }

  /** A submit the session may have read under seqnum `s`. */
  ghost predicate Readable(dev: Device, cmds: Commands, s: u32) {
    s in cmds ==>
      cmds[s].header.body.BodyCmdSubmit? && cmds[s].header.base.seqnum == s && Acceptable(cmds[s], dev.maxTransfer)
  }

  ghost predicate Asked(dev: Device, cmds: Commands, req: UrbRequest) {
    req.seqnum in cmds && Readable(dev, cmds, req.seqnum) && Requests(cmds[req.seqnum], req)
  }

  ghost predicate ReaderTraced(dev: Device, st: State, cmds: Commands) {
    match st.reader
    case Taking(req) => Asked(dev, cmds, req)
    case Passing(req) => Asked(dev, cmds, req)
    case _ => true
  }

  /** A waiting client gets no more than its own command asked for. */
  ghost predicate WaiterTraced(dev: Device, st: State, cmds: Commands, a: u8) {
    a in st.pf.eps && st.pf.eps[a].waiting.Some? ==>
      var w := st.pf.eps[a].waiting.value;
      && w.seqnum in cmds && Readable(dev, cmds, w.seqnum)
      && w.maxLen == cmds[w.seqnum].header.body.submit.transferBufferLength
  }

  /** A client's URB is the one its command describes. */
  ghost predicate EntryTraced(dev: Device, st: State, cmds: Commands, s: u32) {
    s < INTERNAL_BASE && Own(st, s) ==>
      && s in cmds && Readable(dev, cmds, s) && st.table.pending[s].urb in st.table.heap
      && BuiltFor(dev, cmds[s], st.table.heap[st.table.pending[s].urb])
  }

  /** `done` is what the kernel made of a URB built for `c`. */
  ghost predicate FromItsUrb(dev: Device, c: Command, done: Completion)
    requires c.header.body.BodyCmdSubmit?
  {
    exists u, status, actual, filled ::
      && BuiltFor(dev, c, u) && |filled| == |u.buffer| && u.dataOffset <= |filled|
      && CompletesAs(u, status, actual, filled, done)
  }

  ghost predicate HeldTraced(dev: Device, st: State, cmds: Commands) {
    st.reaper.Holding? && st.reaper.done.seqnum < INTERNAL_BASE ==>
      var s := st.reaper.done.seqnum;
      s in cmds && Readable(dev, cmds, s) && FromItsUrb(dev, cmds[s], st.reaper.done)
  }

  ghost predicate Traced(dev: Device, st: State, cmds: Commands) {
    && cmds.Keys == st.fate.Keys
    && ReaderTraced(dev, st, cmds) && HeldTraced(dev, st, cmds)
    && (forall a: u8 :: WaiterTraced(dev, st, cmds, a))
    && (forall s: u32 :: EntryTraced(dev, st, cmds, s))
  }

  // ---------------------------------------------------------------- one step

  /** A newly read submit changes nothing of what is known of the others. */
  lemma NotedFresh(dev: Device, st: State, cmds: Commands, act: Action)
    requires Traced(dev, st, cmds) && Enabled(dev, st, act) && act.ReadSubmit?
    ensures var more := Noted(cmds, act);
            && HeldTraced(dev, st, more) && (forall a: u8 :: WaiterTraced(dev, st, more, a))
            && (forall s: u32 :: EntryTraced(dev, st, more, s))
  {
    var more := Noted(cmds, act);
    assert act.command.header.base.seqnum !in cmds;
    forall s | s in cmds && Readable(dev, cmds, s)
      ensures more[s] == cmds[s] && Readable(dev, more, s)
    {
    }
    forall a: u8
      ensures WaiterTraced(dev, st, more, a)
    {
      assert WaiterTraced(dev, st, cmds, a);
    }
    forall s: u32
      ensures EntryTraced(dev, st, more, s)
    {
      assert EntryTraced(dev, st, cmds, s);
    }
  }

  lemma ReaderStaysTraced(dev: Device, st: State, cmds: Commands, act: Action)
    requires Inv(dev, st) && Enabled(dev, st, act) && !act.NextSession? && ReaderTraced(dev, st, cmds)
    ensures ReaderTraced(dev, Next(dev, st, act), Noted(cmds, act))
  {
    ReaderGoesOn(dev, st, act);
  }

  /** The only step that registers a waiter is the take of the client's own submit. */
  lemma WaitersFrom(dev: Device, st: State, act: Action, a: u8)
    requires Enabled(dev, st, act) && !act.NextSession?
    requires var p := Next(dev, st, act).pf; a in p.eps && p.eps[a].waiting.Some?
    ensures var w := Next(dev, st, act).pf.eps[a].waiting.value;
            || (a in st.pf.eps && st.pf.eps[a].waiting == Some(w))
            || (act.TakeStep? && w == Waiter(st.reader.req.seqnum, st.reader.req.bufferLength))
  {
    if act.TakeStep? {
      TakeRegisters(dev, st, st.reader.req, act.k, a);
    } else if act.DeliverStep? {
      DeliverRegisters(dev, st, act.at, Screen(st.reaper.done, act.swallow), act.k, a);
    } else if act.ArmStep? {
      ArmRegisters(dev, st.pf, st.table, act.address, act.k, a);
    } else if !TouchesEndpoints(act) {
      OthersUntouched(dev, st, act);
    }
  }

  lemma ArmRegisters(dev: Device, p: Inner, t: Table, b: u8, k: Ioctl, a: u8)
    ensures var p' := ArmOne(dev, p, t, b, k).0;
            p'.eps.Keys == p.eps.Keys && (a in p.eps ==> p'.eps[a].waiting == p.eps[a].waiting)
  {
  }

  lemma TakeRegisters(dev: Device, st: State, req: UrbRequest, k: Ioctl, a: u8)
    requires var p := AfterTake(dev, st, req, k).pf; a in p.eps && p.eps[a].waiting.Some?
    ensures var w := AfterTake(dev, st, req, k).pf.eps[a].waiting.value;
            (a in st.pf.eps && st.pf.eps[a].waiting == Some(w)) || w == Waiter(req.seqnum, req.bufferLength)
  {
    var b, w := Address(req.ep, In), Waiter(req.seqnum, req.bufferLength);
    TakeStepIsTheCall(dev, st, req, k);
    if b in st.pf.eps {
      ArmRegisters(dev, Taken(st.pf, b, w), st.table, b, k, a);
    }
  }

  lemma DeliverRegisters(dev: Device, st: State, at: Option<u8>, c: Completion, k: Ioctl, a: u8)
    requires at.Some? ==> at.value in st.pf.eps
    requires var p := AfterDeliver(dev, st, at, c, k).pf; a in p.eps && p.eps[a].waiting.Some?
    ensures a in st.pf.eps && st.pf.eps[a].waiting == AfterDeliver(dev, st, at, c, k).pf.eps[a].waiting
  {
    if at.Some? {
      DeliverStepIsTheCall(dev, st, at.value, c, k);
      ArmRegisters(dev, Delivered(st.pf, at.value, c.status, c.data), st.table, at.value, k, a);
    }
  }

  lemma WaiterStaysTraced(dev: Device, st: State, cmds: Commands, act: Action, a: u8)
    requires Enabled(dev, st, act) && !act.NextSession?
    requires WaiterTraced(dev, st, cmds, a) && ReaderTraced(dev, st, cmds)
    ensures WaiterTraced(dev, Next(dev, st, act), cmds, a)
  {
    var p := Next(dev, st, act).pf;
    if a in p.eps && p.eps[a].waiting.Some? {
      WaitersFrom(dev, st, act, a);
    }
  }

  /** Clients' entries in the new table are the old ones, in the same order of allocation. */
  predicate KeepsClients(t: Table, t': Table) {
    forall s :: s in t'.pending && s < INTERNAL_BASE ==>
      s in t.pending && t'.pending[s].urb == t.pending[s].urb
  }

  lemma ArmKeepsClients(dev: Device, p: Inner, t: Table, a: u8, k: Ioctl)
    requires p.next >= INTERNAL_BASE
    ensures KeepsClients(t, ArmOne(dev, p, t, a, k).1)
  {
  }

  lemma TakeKeepsClients(dev: Device, st: State, req: UrbRequest, k: Ioctl)
    requires st.pf.next >= INTERNAL_BASE
    ensures KeepsClients(st.table, AfterTake(dev, st, req, k).table)
  {
    TakeStepIsTheCall(dev, st, req, k);
    var a, w := Address(req.ep, In), Waiter(req.seqnum, req.bufferLength);
    if a in st.pf.eps {
      ArmKeepsClients(dev, Taken(st.pf, a, w), st.table, a, k);
    }
  }

  lemma DeliverKeepsClients(dev: Device, st: State, at: Option<u8>, c: Completion, k: Ioctl)
    requires st.pf.next >= INTERNAL_BASE && (at.Some? ==> at.value in st.pf.eps)
    ensures KeepsClients(st.table, AfterDeliver(dev, st, at, c, k).table)
  {
    if at.Some? {
      DeliverStepIsTheCall(dev, st, at.value, c, k);
      ArmKeepsClients(dev, Delivered(st.pf, at.value, c.status, c.data), st.table, at.value, k);
    }
  }

  lemma StepKeepsClients(dev: Device, st: State, act: Action)
    requires Inv(dev, st) && Enabled(dev, st, act) && !act.NextSession? && !act.SubmitStep?
    ensures KeepsClients(st.table, Next(dev, st, act).table)
  {
    if act.ArmStep? {
      ArmKeepsClients(dev, st.pf, st.table, act.address, act.k);
    } else if act.TakeStep? {
      TakeKeepsClients(dev, st, st.reader.req, act.k);
    } else if act.DeliverStep? {
      DeliverKeepsClients(dev, st, act.at, Screen(st.reaper.done, act.swallow), act.k);
    } else {
      TableMoves(dev, st, act);
    }
  }

  lemma SubmitStaysTraced(dev: Device, st: State, cmds: Commands, k: Ioctl, s: u32)
    requires Inv(dev, st) && Enabled(dev, st, SubmitStep(k))
    requires EntryTraced(dev, st, cmds, s) && ReaderTraced(dev, st, cmds)
    ensures EntryTraced(dev, Next(dev, st, SubmitStep(k)), cmds, s)
  {
    var req := st.reader.req;
    TableMoves(dev, st, SubmitStep(k));
    SubmitDecides(dev, st.table, req, k);
    assert EntryLinked(st.table, s);
    var c := cmds[req.seqnum];
    assert req == RequestOf(c);
    if Prepare(dev, req).Built? {
      BuildsFor(dev, c);
    }
    assert Next(dev, st, SubmitStep(k)).since == st.since;
  }

  lemma EntryStaysTraced(dev: Device, st: State, cmds: Commands, act: Action, s: u32)
    requires Inv(dev, st) && Enabled(dev, st, act) && !act.NextSession?
    requires EntryTraced(dev, st, cmds, s) && ReaderTraced(dev, st, cmds)
    ensures EntryTraced(dev, Next(dev, st, act), cmds, s)
  {
    var st' := Next(dev, st, act);
    if act.SubmitStep? {
      SubmitStaysTraced(dev, st, cmds, act.k, s);
    } else if s < INTERNAL_BASE && Own(st', s) {
      StepKeepsClients(dev, st, act);
      StepExtends(dev, st, act);
      StepKeeps(dev, st, act);
      assert EntryLinked(st'.table, s) && EntryLinked(st.table, s);
      StepNotReused(dev, st, act, st.table.pending[s].urb);
    }
  }

  lemma HeldStaysTraced(dev: Device, st: State, cmds: Commands, act: Action)
    requires Inv(dev, st) && Enabled(dev, st, act) && !act.NextSession?
    requires HeldTraced(dev, st, cmds) && forall s: u32 :: EntryTraced(dev, st, cmds, s)
    ensures HeldTraced(dev, Next(dev, st, act), cmds)
  {
    ReaperGoesOn(dev, st, act);
    if act.ReapStep? && act.r.Completes? && Next(dev, st, act).reaper.Holding? {
      StepKeeps(dev, st, act);
      StepExtends(dev, st, act);
      ReapedFromItsUrb(dev, st, cmds, act.r, Next(dev, st, act).reaper.done);
    }
  }

  lemma ReapedFromItsUrb(dev: Device, st: State, cmds: Commands, r: KernelReap, done: Completion)
    requires Mirrors(st.table) && KernelMay(st.table, r) && r.Completes? && r.urb >= st.since
    requires CompletesAs(st.table.heap[r.urb], r.status, r.actual, r.filled, done)
    requires EntryTraced(dev, st, cmds, st.table.heap[r.urb].seqnum)
    ensures done.seqnum < INTERNAL_BASE ==>
              && done.seqnum in cmds && Readable(dev, cmds, done.seqnum)
              && FromItsUrb(dev, cmds[done.seqnum], done)
  {
    assert st.table.pending[st.table.heap[r.urb].seqnum].urb == r.urb;
  }

  lemma StepStaysTraced(dev: Device, st: State, cmds: Commands, act: Action)
    requires Inv(dev, st) && Enabled(dev, st, act) && !act.NextSession? && Traced(dev, st, cmds)
    ensures Traced(dev, Next(dev, st, act), Noted(cmds, act))
  {
    var st', more := Next(dev, st, act), Noted(cmds, act);
    FateKeysMove(dev, st, act);
    ReaderStaysTraced(dev, st, cmds, act);
    if act.ReadSubmit? {
      NotedFresh(dev, st, cmds, act);
      ReadLeavesRest(dev, st, more, act);
    } else {
      HeldStaysTraced(dev, st, cmds, act);
      forall a: u8 ensures WaiterTraced(dev, st', cmds, a) { WaiterStaysTraced(dev, st, cmds, act, a); }
      forall s: u32 ensures EntryTraced(dev, st', cmds, s) { EntryStaysTraced(dev, st, cmds, act, s); }
    }
  }

  lemma ReadLeavesRest(dev: Device, st: State, cmds: Commands, act: Action)
    requires Enabled(dev, st, act) && act.ReadSubmit?
    requires HeldTraced(dev, st, cmds)
    requires forall a: u8 :: WaiterTraced(dev, st, cmds, a)
    requires forall s: u32 :: EntryTraced(dev, st, cmds, s)
    ensures HeldTraced(dev, Next(dev, st, act), cmds)
    ensures forall a: u8 :: WaiterTraced(dev, Next(dev, st, act), cmds, a)
    ensures forall s: u32 :: EntryTraced(dev, Next(dev, st, act), cmds, s)
  {
    var st' := Next(dev, st, act);
    forall a: u8 ensures WaiterTraced(dev, st', cmds, a) { assert WaiterTraced(dev, st, cmds, a); }
    forall s: u32 ensures EntryTraced(dev, st', cmds, s) { assert EntryTraced(dev, st, cmds, s); }
  }

  lemma FateKeysMove(dev: Device, st: State, act: Action)
    requires Inv(dev, st) && Enabled(dev, st, act) && !act.NextSession?
    ensures Next(dev, st, act).fate.Keys ==
              st.fate.Keys + (if act.ReadSubmit? then {act.command.header.base.seqnum} else {})
  {
    forall s: u32
      ensures s in Next(dev, st, act).fate <==>
              s in st.fate || (act.ReadSubmit? && s == act.command.header.base.seqnum)
    {
      PlacesMove(dev, st, act, s);
    }
  }

  // ------------------------------------------------------------ over whole runs

  lemma {:induction false} RunStaysTraced(dev: Device, st: State, cmds: Commands, acts: seq<Action>)
    requires Inv(dev, st) && Runs(dev, st, acts) && OneSession(acts) && Traced(dev, st, cmds)
    ensures Traced(dev, After(dev, st, acts), ReadBy(cmds, acts))
    decreases |acts|
  {
    if acts != [] {
      assert !acts[0].NextSession?;
      StepStaysTraced(dev, st, cmds, acts[0]);
      StepKeeps(dev, st, acts[0]);
      RunStaysTraced(dev, Next(dev, st, acts[0]), Noted(cmds, acts[0]), acts[1..]);
    }
  }

  lemma StartIsTraced(dev: Device, t: Table, endpoints: map<u8, u16>)
    requires Drained(dev, t)
    ensures Traced(dev, SessionStart(t, endpoints), map[])
  {
    var st := SessionStart(t, endpoints);
    forall s: u32
      ensures !Own(st, s)
    {
      assert s in t.pending ==> t.pending[s].urb in t.heap;
    }
  }

  /**
    * In every run of a session, whatever table it started on: the completion the reaper is about
    * to report to a client was made by the kernel in the buffer of a URB built for the very command
    * the client sent under that seqnum; and a client waiting for a report waits for as many bytes
    * as its own command asked for.
    */
  lemma AnsweredFromItsOwnUrb(dev: Device, t: Table, endpoints: map<u8, u16>, acts: seq<Action>, a: u8)
    requires Drained(dev, t) && Runs(dev, SessionStart(t, endpoints), acts) && OneSession(acts)
    ensures var st, cmds := After(dev, SessionStart(t, endpoints), acts), ReadBy(map[], acts);
            && (st.reaper.Holding? && st.reaper.done.seqnum < INTERNAL_BASE ==>
                  var s := st.reaper.done.seqnum;
                  s in cmds && cmds[s].header.body.BodyCmdSubmit? && FromItsUrb(dev, cmds[s], st.reaper.done))
            && (a in st.pf.eps && st.pf.eps[a].waiting.Some? ==>
                  var w := st.pf.eps[a].waiting.value;
                  && w.seqnum in cmds && cmds[w.seqnum].header.body.BodyCmdSubmit?
                  && w.maxLen == cmds[w.seqnum].header.body.submit.transferBufferLength)
  {
    SessionStartHolds(dev, t, endpoints);
    StartIsTraced(dev, t, endpoints);
    RunStaysTraced(dev, SessionStart(t, endpoints), map[], acts);
    assert WaiterTraced(dev, After(dev, SessionStart(t, endpoints), acts), ReadBy(map[], acts), a);
  }
}
