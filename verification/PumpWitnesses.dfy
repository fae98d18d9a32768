/**
  * Runs from a newly opened device that reach the states in which the pump's promises fail,
  * so that the conditions proved for them are about something.
  */
module PumpWitnesses {
  import opened Types
  import opened Pdu
  import opened Framing
  import opened Usbfs
  import opened Prefetch
  import opened Prefetcher
  import opened Pump
  import opened PumpInvariant
  import opened PumpSafety
  import opened PumpResults
  import opened PumpWaiters
  import opened PumpLeftovers

  ghost predicate Leads(dev: Device, st: State, st': State) {
    exists acts: seq<Action> :: Runs(dev, st, acts) && After(dev, st, acts) == st'
  }

  lemma LeadsNowhere(dev: Device, st: State)
    ensures Leads(dev, st, st)
  {
    assert Runs(dev, st, []) && After(dev, st, []) == st;
  }

  lemma {:induction false} RunsOn(dev: Device, st: State, acts: seq<Action>, more: seq<Action>)
    requires Runs(dev, st, acts) && Runs(dev, After(dev, st, acts), more)
    ensures Runs(dev, st, acts + more)
    ensures After(dev, st, acts + more) == After(dev, After(dev, st, acts), more)
    decreases |acts|
  {
    if acts == [] {
      assert acts + more == more;
    } else {
      assert (acts + more)[1..] == acts[1..] + more;
      RunsOn(dev, Next(dev, st, acts[0]), acts[1..], more);
    }
  }

  lemma LeadsOn(dev: Device, st: State, st1: State, act: Action, st2: State)
    requires Leads(dev, st, st1) && Enabled(dev, st1, act) && Next(dev, st1, act) == st2
    ensures Leads(dev, st, st2)
  {
    var acts: seq<Action> :| Runs(dev, st, acts) && After(dev, st, acts) == st1;
    Prepend(dev, st1, act, st2, []);
    RunsOn(dev, st, acts, [act] + []);
  }

  // --------------------------------------------------------- a forsaken waiter

  /** An interrupt IN submit on endpoint `n`. */
  function ReportSubmit(s: u32, n: u8, length: i32): Command {
    Command(Header(BasicHeader(USBIP_CMD_SUBMIT, s, 0, 1, n),
                   BodyCmdSubmit(CmdSubmit(0, length, 0, 0, 0, [0, 0, 0, 0, 0, 0, 0, 0]))), [], [])
  }

  /** A session whose one endpoint has had its first arm refused. */
  lemma RefusedAtStart(dev: Device, n: u8, maxPacket: u16) returns (st: State)
    requires n < 0x10
    ensures Leads(dev, SessionStart(EMPTY_TABLE, map[0x80 + n := maxPacket]), st) && st.reader.Reading?
    ensures st.pf == Inner(map[0x80 + n := NewEndpoint(0x80 + n, maxPacket).(errors := 1)], INTERNAL_BASE)
    ensures st.reaper.Polling? && st.phase.Pumping? && st.fate == map[] && st.unlinks == map[]
  {
    var a: u8 := 0x80 + n;
    var st0 := SessionStart(EMPTY_TABLE, map[a := maxPacket]);
    var st1 := AfterArm(dev, st0, a, Errno(EIO));
    LeadsNowhere(dev, st0);
    FirstArmRefused(dev, st0, a, maxPacket);
    LeadsOn(dev, st0, st0, ArmStep(a, Errno(EIO)), st1);
    st := st1.(reader := Reading);
    LeadsOn(dev, st0, st1, Start, st);
  }

  lemma FirstArmRefused(dev: Device, st: State, a: u8, maxPacket: u16)
    requires st.pf == Inner(map[a := NewEndpoint(a, maxPacket)], INTERNAL_BASE)
    ensures var st' := AfterArm(dev, st, a, Errno(EIO));
            && st'.pf == Inner(map[a := NewEndpoint(a, maxPacket).(errors := 1)], INTERNAL_BASE)
            && st' == st.(pf := st'.pf, table := st'.table, hist := st'.hist)
            && st'.hist.Keys == st.hist.Keys + {a}
  {
    InternalUrbIsNeverHandled(dev, InternalRequest(st.pf.eps[a], st.pf.next));
    assert ArmResult(dev, st.pf, st.table, a, Errno(EIO)).Refused?;
    assert map[a := NewEndpoint(a, maxPacket)][a := NewEndpoint(a, maxPacket).(errors := 1)]
        == map[a := NewEndpoint(a, maxPacket).(errors := 1)];
  }

  lemma RefusedTakeForsakes(dev: Device, st: State, req: UrbRequest)
    requires Inv(dev, st) && MayTake(st, req) && !st.reaper.Finished? && st.pf.next == INTERNAL_BASE
    requires var e := st.pf.eps[Address(req.ep, In)]; e.captured == [] && e.inFlight.None?
    ensures var st' := AfterTake(dev, st, req, Errno(EIO));
            && WaitsFor(st'.pf, Address(req.ep, In), req.seqnum) && !Answerable(dev, st', req.seqnum)
            && st'.reaper == st.reaper
  {
    var a, w := Address(req.ep, In), Waiter(req.seqnum, req.bufferLength);
    var st' := AfterTake(dev, st, req, Errno(EIO));
    TakenToWait(dev, st, req, Errno(EIO));
    TakeStepIsTheCall(dev, st, req, Errno(EIO));
    RefusedArm(dev, Taken(st.pf, a, w), st.table, a);
    StepKeeps(dev, st, TakeStep(Errno(EIO)));
    WaiterOfState(dev, st', a, req.seqnum);
  }

  /** A client's submit on that endpoint has been read, and the prefetcher is asked next. */
  lemma SubmitRead(dev: Device, st: State, n: u8, s: u32, length: i32) returns (st': State)
    requires n < 0x10 && s < INTERNAL_BASE && 0 <= length <= dev.maxTransfer
    requires st.reader.Reading? && st.fate == map[] && st.unlinks == map[]
    requires 0x80 + n in st.pf.eps && !st.pf.eps[0x80 + n].disabled
    ensures var c := ReportSubmit(s, n, length);
            && Enabled(dev, st, ReadSubmit(c)) && Next(dev, st, ReadSubmit(c)) == st'
            && MayTake(st', RequestOf(c)) && Address(RequestOf(c).ep, In) == 0x80 + n
    ensures st'.pf == st.pf && st'.reaper == st.reaper && st'.phase == st.phase
  {
    var c := ReportSubmit(s, n, length);
    assert Acceptable(c, dev.maxTransfer);
    st' := AfterRead(st, c);
  }

  /** The first arm and the re-arm are both refused: the client waits, and no run ever answers it. */
  lemma ForsakenReached(dev: Device, n: u8, maxPacket: u16, s: u32, length: i32) returns (st: State)
    requires n < 0x10 && s < INTERNAL_BASE && 0 <= length <= dev.maxTransfer
    ensures Leads(dev, SessionStart(EMPTY_TABLE, map[0x80 + n := maxPacket]), st)
    ensures !st.reaper.Finished? && WaitsFor(st.pf, 0x80 + n, s) && !Answerable(dev, st, s)
  {
    var st0, c := SessionStart(EMPTY_TABLE, map[0x80 + n := maxPacket]), ReportSubmit(s, n, length);
    var req := RequestOf(c);
    var st1 := RefusedAtStart(dev, n, maxPacket);
    var st2 := SubmitRead(dev, st1, n, s, length);
    LeadsOn(dev, st0, st1, ReadSubmit(c), st2);
    LeadsHolds(dev, map[0x80 + n := maxPacket], st2);
    RefusedTakeForsakes(dev, st2, req);
    st := AfterTake(dev, st2, req, Errno(EIO));
    LeadsOn(dev, st0, st2, TakeStep(Errno(EIO)), st);
  }

  lemma LeadsHolds(dev: Device, endpoints: map<u8, u16>, st: State)
    requires Leads(dev, SessionStart(EMPTY_TABLE, endpoints), st)
    ensures Inv(dev, st)
  {
    var acts: seq<Action> :| Runs(dev, SessionStart(EMPTY_TABLE, endpoints), acts)
                             && After(dev, SessionStart(EMPTY_TABLE, endpoints), acts) == st;
    ReachedHolds(dev, endpoints, acts);
  }

  // ------------------------------------------------ a session's leftover URB

  /** The client's one submit is in the kernel. */
  lemma ProbeSubmitted(dev: Device, s: u32) returns (st: State)
    requires s < INTERNAL_BASE
    ensures Leads(dev, SessionStart(EMPTY_TABLE, map[]), st) && Inv(dev, st)
    ensures st.reader.Reading? && st.reaper.Polling? && st.phase.Pumping? && st.pf.eps == map[]
    ensures st.table.pending == map[s := Entry(0, false)]
  {
    var st0, req := SessionStart(EMPTY_TABLE, map[]), RequestOf(Probe(s));
    var st1 := st0.(reader := Reading);
    var st2 := st1.(reader := Taking(req), fate := map[s := AtReader], dirs := map[s := In]);
    var st3 := st2.(reader := Passing(req));
    LeadsNowhere(dev, st0);
    LeadsOn(dev, st0, st0, Start, st1);
    LeadsOn(dev, st0, st1, ReadSubmit(Probe(s)), st2);
    LeadsOn(dev, st0, st2, TakeStep(Success), st3);
    st := AfterSubmit(dev, st3, req, Success);
    LeadsOn(dev, st0, st3, SubmitStep(Success), st);
    ProbeAccepted(dev, s);
    assert st.pf == st3.pf && st.reaper == st3.reaper && st.phase == st3.phase;
    LeadsHolds(dev, map[], st);
  }

  lemma ProbeAccepted(dev: Device, s: u32)
    ensures var (t, r) := DoSubmit(dev, EMPTY_TABLE, RequestOf(Probe(s)), Success);
            r.Submitted? && t.pending == map[s := Entry(0, false)]
  {
    assert Prepare(dev, RequestOf(Probe(s))).Built?;
  }

  /** The client leaves, and both threads with it. */
  lemma ThreadsGone(dev: Device, st0: State, st: State) returns (st': State)
    requires Leads(dev, st0, st) && st.reader.Reading? && st.reaper.Polling? && st.phase.Pumping?
    ensures Leads(dev, st0, st') && st'.phase.Shutting? && st'.reaper.Finished?
    ensures st'.table.pending.Keys == st.table.pending.Keys
  {
    var st1 := st.(reader := Returned);
    LeadsOn(dev, st0, st, ReaderExit, st1);
    var st2 := AfterShutdown(st1);
    LeadsOn(dev, st0, st1, ShutdownStep, st2);
    st' := Raise(st2.(reaper := Finished));
    LeadsOn(dev, st0, st2, ReaperExit, st');
    assert st2.table.pending.Keys == st.table.pending.Keys;
  }

  /** The discard does not land, and the drain runs out of time. */
  lemma WoundDown(dev: Device, st0: State, st: State, s: u32) returns (st': State)
    requires Leads(dev, st0, st) && st.phase.Shutting? && st.reaper.Finished?
    requires st.table.pending.Keys == {s}
    ensures Leads(dev, st0, st') && st'.phase == Cancelling({}) && s in st'.table.pending
  {
    var st1 := st.(phase := Cancelling(st.table.pending.Keys));
    LeadsOn(dev, st0, st, CancelStart, st1);
    assert st1.phase.todo == {s};
    st' := AfterCancelOne(st1, s, false);
    LeadsOn(dev, st0, st1, CancelOne(s, false), st');
  }

  /** A session can leave a client's URB behind, on every device and under every client seqnum. */
  lemma LeftoverReached(dev: Device, s: u32) returns (st: State)
    requires s < INTERNAL_BASE
    ensures Leads(dev, SessionStart(EMPTY_TABLE, map[]), st) && Inv(dev, st)
    ensures Enabled(dev, st, NextSession(map[])) && s in st.table.pending
  {
    var st1 := ProbeSubmitted(dev, s);
    var st2 := ThreadsGone(dev, SessionStart(EMPTY_TABLE, map[]), st1);
    st := WoundDown(dev, SessionStart(EMPTY_TABLE, map[]), st2, s);
    LeadsHolds(dev, map[], st);
  }

  /**
    * From a newly opened device: one session leaves a URB behind, the next reuses its seqnum,
    * is answered that it is busy, and is then told the submit was cancelled.
    */
  lemma CancellationBreaks(dev: Device, s: u32) returns (acts: seq<Action>)
    requires s < INTERNAL_BASE
    ensures FreshRun(dev, map[], acts) && !Cancels(Reached(dev, map[], acts))
  {
    var st0 := SessionStart(EMPTY_TABLE, map[]);
    var st := LeftoverReached(dev, s);
    var first: seq<Action> :| Runs(dev, st0, first) && After(dev, st0, first) == st;
    var second := AnsweredThenCancelled(dev, st.table, s);
    acts := first + ([NextSession(map[])] + second);
    Prepend(dev, st, NextSession(map[]), SessionStart(st.table, map[]), second);
    RunsOn(dev, st0, first, [NextSession(map[])] + second);
  }

  /** The session's first internal URB is in the kernel. */
  lemma ArmedAndReading(dev: Device, a: u8, maxPacket: u16) returns (st: State)
    requires Prepare(dev, InternalRequest(NewEndpoint(a, maxPacket), INTERNAL_BASE)).Built?
    ensures Leads(dev, SessionStart(EMPTY_TABLE, map[a := maxPacket]), st)
    ensures st.reader.Reading? && st.reaper.Polling? && st.phase.Pumping? && st.table.pending.Keys == {INTERNAL_BASE}
  {
    var st0 := SessionStart(EMPTY_TABLE, map[a := maxPacket]);
    var st1 := AfterArm(dev, st0, a, Success);
    LeadsNowhere(dev, st0);
    LeadsOn(dev, st0, st0, ArmStep(a, Success), st1);
    assert st1.hist.Keys == st1.pf.eps.Keys;
    st := st1.(reader := Reading);
    LeadsOn(dev, st0, st1, Start, st);
    assert st1.table.pending.Keys == {INTERNAL_BASE};
  }

  /** A session whose every arm is blocked by what the one before it left behind. */
  lemma BlockedReached(dev: Device, a: u8, maxPacket: u16) returns (st: State)
    requires Prepare(dev, InternalRequest(NewEndpoint(a, maxPacket), INTERNAL_BASE)).Built?
    ensures Leads(dev, SessionStart(EMPTY_TABLE, map[a := maxPacket]), st) && st.reader.Arming?
    ensures a in st.pf.eps && Blocked(st)
  {
    var st0 := SessionStart(EMPTY_TABLE, map[a := maxPacket]);
    var st1 := ArmedAndReading(dev, a, maxPacket);
    var st2 := ThreadsGone(dev, st0, st1);
    var st3 := WoundDown(dev, st0, st2, INTERNAL_BASE);
    st := SessionStart(st3.table, map[a := maxPacket]);
    LeadsOn(dev, st0, st3, NextSession(map[a := maxPacket]), st);
  }
}
