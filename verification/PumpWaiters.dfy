/**
  * Which clients left waiting on a prefetched endpoint can still be answered
  * (crates/usbfwd-server/src/prefetch.rs, `take`), and what giving up on an endpoint means
  * for the rest of a session.
  */
module PumpWaiters {
  import opened Types
  import opened Pdu
  import opened Usbfs
  import opened Prefetch
  import opened Prefetcher
  import opened Pump
  import opened PumpInvariant
  import opened PumpSafety

  // --------------------------------------------------------- the endpoints' steps

  /** The steps that change an endpoint. */
  predicate TouchesEndpoints(act: Action) {
    act.ArmStep? || act.TakeStep? || act.DeliverStep? || act.UnlinkWaiter? || act.ShutdownStep?
  }

  lemma OthersUntouched(dev: Device, st: State, act: Action)
    requires Enabled(dev, st, act) && !TouchesEndpoints(act) && !act.NextSession?
    ensures Next(dev, st, act).pf == st.pf
  {
    if act.SubmitStep? {
      SubmitLeavesEndpoints(st, st.reader.req, DoSubmit(dev, st.table, st.reader.req, act.k));
    }
  }

  lemma SubmitLeavesEndpoints(st: State, req: UrbRequest, x: (Table, SubmitResult))
    ensures Submitting(st, req, x.0, x.1).pf == st.pf
  {
  }

  // ------------------------------------------------------- disabled for the session

  predicate GivenUp(p: Inner, a: u8) {
    a in p.eps && p.eps[a].disabled
  }

  lemma TakeKeepsGivenUp(dev: Device, st: State, req: UrbRequest, k: Ioctl, a: u8)
    requires GivenUp(st.pf, a)
    ensures GivenUp(AfterTake(dev, st, req, k).pf, a)
  {
    TakeStepIsTheCall(dev, st, req, k);
  }

  lemma DeliverKeepsGivenUp(dev: Device, st: State, at: Option<u8>, c: Completion, k: Ioctl, a: u8)
    requires GivenUp(st.pf, a) && (at.Some? ==> at.value in st.pf.eps)
    ensures GivenUp(AfterDeliver(dev, st, at, c, k).pf, a)
  {
    if at.Some? {
      DeliverStepIsTheCall(dev, st, at.value, c, k);
    }
  }

  lemma StepKeepsGivenUp(dev: Device, st: State, act: Action, a: u8)
    requires Enabled(dev, st, act) && !act.NextSession? && GivenUp(st.pf, a)
    ensures GivenUp(Next(dev, st, act).pf, a)
  {
    if act.TakeStep? {
      TakeKeepsGivenUp(dev, st, st.reader.req, act.k, a);
    } else if act.DeliverStep? {
      DeliverKeepsGivenUp(dev, st, act.at, Screen(st.reaper.done, act.swallow), act.k, a);
    } else if !TouchesEndpoints(act) {
      OthersUntouched(dev, st, act);
    }
  }

  lemma {:induction false} RunKeepsGivenUp(dev: Device, st: State, acts: seq<Action>, a: u8)
    requires Runs(dev, st, acts) && OneSession(acts) && GivenUp(st.pf, a)
    ensures GivenUp(After(dev, st, acts).pf, a)
    decreases |acts|
  {
    if acts != [] {
      assert !acts[0].NextSession?;
      StepKeepsGivenUp(dev, st, acts[0], a);
      RunKeepsGivenUp(dev, Next(dev, st, acts[0]), acts[1..], a);
    }
  }

  /**
    * An endpoint given up on stays given up on for the rest of the session: in every later state
    * it has no URB in flight, so each submit on it goes to the device.
    */
  lemma DisabledForTheSession(dev: Device, endpoints: map<u8, u16>, before: seq<Action>, acts: seq<Action>, a: u8)
    requires FreshRun(dev, endpoints, before) && GivenUp(Reached(dev, endpoints, before).pf, a)
    requires Runs(dev, Reached(dev, endpoints, before), acts) && OneSession(acts)
    ensures var p := After(dev, Reached(dev, endpoints, before), acts).pf;
            GivenUp(p, a) && p.eps[a].inFlight.None? && forall w :: TakeFrom(p.eps[a], w).1.PassThrough?
  {
    var st := Reached(dev, endpoints, before);
    var st' := After(dev, st, acts);
    ReachedHolds(dev, endpoints, before);
    RunKeepsGivenUp(dev, st, acts, a);
    RunKeeps(dev, st, acts);
    assert HistoryOk(st'.pf, st'.hist, st'.reader.Arming?, a);
  }

  // ---------------------------------------------------- given up on, exactly when

  /** While the session runs, an armed endpoint has been given up on exactly if its history says so. */
  ghost predicate CountedRight(st: State, a: u8) {
    st.phase.Pumping? && a in st.hist ==> a in st.pf.eps && CountsFailures(st.pf.eps[a], st.hist[a])
  }

  lemma ArmCounts(dev: Device, st: State, b: u8, k: Ioctl, a: u8)
    requires Inv(dev, st) && Enabled(dev, st, ArmStep(b, k)) && CountedRight(st, a)
    ensures CountedRight(AfterArm(dev, st, b, k), a)
  {
    if a == b {
      assert HistoryOk(st.pf, st.hist, true, a);
      var r := ArmResult(dev, st.pf, st.table, a, k);
      InternalSubmitNotHandled(dev, st.pf, st.table, a, k);
      ArmCountsFailures(st.pf.eps[a], [], st.pf.next, r);
      assert [] + ArmEvents(st.pf.eps[a], r) == ArmEvents(st.pf.eps[a], r);
      ArmedAs(dev, st.pf, st.table, a, k);
    }
  }

  lemma ArmedAs(dev: Device, p: Inner, t: Table, a: u8, k: Ioctl)
    requires a in p.eps
    ensures var p' := ArmOne(dev, p, t, a, k).0;
            && p'.eps.Keys == p.eps.Keys && p'.eps[a] == Arm(p.eps[a], p.next, ArmResult(dev, p, t, a, k))
            && forall b :: b in p.eps && b != a ==> p'.eps[b] == p.eps[b]
  {
  }

  lemma TakeCounts(dev: Device, st: State, req: UrbRequest, k: Ioctl, a: u8)
    requires Inv(dev, st) && st.reader == Taking(req) && CountedRight(st, a)
    ensures CountedRight(AfterTake(dev, st, req, k), a)
  {
    var b, w := Address(req.ep, In), Waiter(req.seqnum, req.bufferLength);
    if MayTake(st, req) {
      var mid, e := MidTake(st, req), st.pf.eps[b];
      assert HistoryOk(st.pf, st.hist, false, b) && b in st.hist;
      InternalSubmitNotHandled(dev, mid.pf, mid.table, b, k);
      ArmedAs(dev, mid.pf, mid.table, b, k);
      if a == b && st.phase.Pumping? {
        TakeCountsFailures(e, st.hist[a], w, mid.pf.next, ArmResult(dev, mid.pf, mid.table, a, k));
      }
    }
  }

  lemma DeliverCounts(dev: Device, st: State, at: Option<u8>, c: Completion, k: Ioctl, a: u8)
    requires Inv(dev, st) && !st.reader.Arming? && CountedRight(st, a)
    requires at.Some? ==> MayDeliver(dev, st, at.value, c)
    ensures CountedRight(AfterDeliver(dev, st, at, c, k), a)
  {
    if at.Some? {
      var b := at.value;
      var mid, e := MidDeliver(st, b, c), st.pf.eps[b];
      assert HistoryOk(st.pf, st.hist, false, b) && b in st.hist;
      InternalSubmitNotHandled(dev, mid.pf, mid.table, b, k);
      ArmedAs(dev, mid.pf, mid.table, b, k);
      if a == b && st.phase.Pumping? {
        DeliverCountsFailures(e, st.hist[a], c.status, c.data, mid.pf.next, ArmResult(dev, mid.pf, mid.table, a, k));
      }
    }
  }

  lemma OthersCount(dev: Device, st: State, act: Action, a: u8)
    requires Enabled(dev, st, act) && !act.ArmStep? && !act.TakeStep? && !act.DeliverStep? && CountedRight(st, a)
    ensures CountedRight(Next(dev, st, act), a)
  {
    if !TouchesEndpoints(act) && !act.NextSession? {
      OthersUntouched(dev, st, act);
      SubmitLeavesHistory(dev, st, act);
    }
  }

  lemma SubmitLeavesHistory(dev: Device, st: State, act: Action)
    requires Enabled(dev, st, act) && !TouchesEndpoints(act) && !act.NextSession?
    ensures Next(dev, st, act).hist == st.hist && (Next(dev, st, act).phase.Pumping? ==> st.phase.Pumping?)
  {
    if act.SubmitStep? {
      var (t, r) := DoSubmit(dev, st.table, st.reader.req, act.k);
      assert Submitting(st, st.reader.req, t, r).hist == st.hist;
    }
  }

  lemma StepCounts(dev: Device, st: State, act: Action, a: u8)
    requires Inv(dev, st) && Enabled(dev, st, act) && CountedRight(st, a)
    ensures CountedRight(Next(dev, st, act), a)
  {
    if act.ArmStep? {
      ArmCounts(dev, st, act.address, act.k, a);
    } else if act.TakeStep? {
      TakeCounts(dev, st, st.reader.req, act.k, a);
    } else if act.DeliverStep? {
      DeliverCounts(dev, st, act.at, Screen(st.reaper.done, act.swallow), act.k, a);
    } else {
      OthersCount(dev, st, act, a);
    }
  }

  lemma {:induction false} RunCounts(dev: Device, st: State, acts: seq<Action>, a: u8)
    requires Inv(dev, st) && Runs(dev, st, acts) && CountedRight(st, a)
    ensures CountedRight(After(dev, st, acts), a)
    decreases |acts|
  {
    if acts != [] {
      StepCounts(dev, st, acts[0], a);
      StepKeeps(dev, st, acts[0]);
      RunCounts(dev, Next(dev, st, acts[0]), acts[1..], a);
    }
  }

  /**
    * In every run, while a session is running, an endpoint that has been armed has been given up on
    * if and only if its last eight attempts failed with no good report between them, or the device
    * was found to be gone; until then its error count is the failures since the last good report.
    */
  lemma GivenUpExactly(dev: Device, endpoints: map<u8, u16>, acts: seq<Action>, a: u8)
    requires FreshRun(dev, endpoints, acts)
    requires var st := Reached(dev, endpoints, acts); st.phase.Pumping? && a in st.hist
    ensures var st := Reached(dev, endpoints, acts);
            && a in st.pf.eps && (st.pf.eps[a].disabled <==> GaveUp(st.hist[a]))
            && (!st.pf.eps[a].disabled ==> st.pf.eps[a].errors == FailuresSinceGood(st.hist[a]) < 8)
  {
    SessionStartHolds(dev, EMPTY_TABLE, endpoints);
    RunCounts(dev, SessionStart(EMPTY_TABLE, endpoints), acts, a);
  }

  // --------------------------------------------------------- answered or forsaken

  /** Some way on from `st` within the session, the client gets a RET_SUBMIT for `s`. */
  ghost predicate Answerable(dev: Device, st: State, s: u32) {
    exists acts: seq<Action> ::
      Runs(dev, st, acts) && OneSession(acts) && Replies(After(dev, st, acts).log, s) > 0
  }

  lemma AnswerableBefore(dev: Device, st: State, act: Action, s: u32)
    requires Enabled(dev, st, act) && !act.NextSession? && Answerable(dev, Next(dev, st, act), s)
    ensures Answerable(dev, st, s)
  {
    var st1 := Next(dev, st, act);
    var acts: seq<Action> :| Runs(dev, st1, acts) && OneSession(acts) && Replies(After(dev, st1, acts).log, s) > 0;
    var all := [act] + acts;
    assert all[1..] == acts && all[0] == act;
    assert Runs(dev, st, all) && OneSession(all) && After(dev, st, all) == After(dev, st1, acts);
  }

  /** A waiter nobody will ever answer, or one whose submit has been settled without an answer. */
  ghost predicate Forsaken(st: State, a: u8, s: u32) {
    && s in st.fate
    && (|| st.fate[s].Cancelled? || st.fate[s].Superseded? || st.fate[s].Dropped?
        || (WaitsFor(st.pf, a, s) && (st.reaper.Finished? || st.pf.eps[a].inFlight.None?)))
  }

  /** The reaper's end is final. */
  lemma FinishedStays(dev: Device, st: State, act: Action)
    requires Enabled(dev, st, act) && !act.NextSession? && st.reaper.Finished?
    ensures Next(dev, st, act).reaper.Finished?
  {
    if act.SubmitStep? {
      assert Submitting(st, st.reader.req, DoSubmit(dev, st.table, st.reader.req, act.k).0,
                        DoSubmit(dev, st.table, st.reader.req, act.k).1).reaper == st.reaper;
    }
  }

  lemma NobodyWaitsYet(dev: Device, st: State, a: u8, s: u32)
    requires Inv(dev, st) && st.reader.Arming?
    ensures !WaitsFor(st.pf, a, s)
  {
    assert WaitOk(st.fate, st.pf, s, a);
  }

  /** While the same client waits there, no step puts a URB in flight on an idle endpoint. */
  lemma IdleStays(dev: Device, st: State, act: Action, a: u8, s: u32)
    requires Inv(dev, st) && Enabled(dev, st, act) && !act.NextSession?
    requires WaitsFor(st.pf, a, s) && st.pf.eps[a].inFlight.None?
    requires WaitsFor(Next(dev, st, act).pf, a, s)
    ensures Next(dev, st, act).pf.eps[a].inFlight.None?
  {
    if !TouchesEndpoints(act) {
      OthersUntouched(dev, st, act);
    } else if act.TakeStep? {
      TakerIsAnother(dev, st, a, s);
      TakeLeavesIdle(dev, st, st.reader.req, act.k, a, s);
    } else if act.DeliverStep? {
      DeliverLeavesIdle(dev, st, act, a, s);
    } else if act.ArmStep? {
      NobodyWaitsYet(dev, st, a, s);
    } else if act.UnlinkWaiter? {
      UnlinkLeavesIdle(st, act.at, a);
    }
  }

  lemma UnlinkLeavesIdle(st: State, at: Option<u8>, a: u8)
    requires st.reader.Unlinking? && (at.Some? ==> at.value in st.pf.eps)
    requires a in st.pf.eps && st.pf.eps[a].inFlight.None?
    ensures AfterUnlinkWaiter(st, at).pf.eps[a].inFlight.None?
  {
  }

  lemma TakerIsAnother(dev: Device, st: State, a: u8, s: u32)
    requires Inv(dev, st) && st.reader.Taking? && WaitsFor(st.pf, a, s)
    ensures st.reader.req.seqnum != s && st.pf.eps[a].captured == []
  {
    assert HistoryOk(st.pf, st.hist, false, a) && WaitOk(st.fate, st.pf, s, a) && SeqOk(dev, st, s);
  }

  lemma TakeLeavesIdle(dev: Device, st: State, req: UrbRequest, k: Ioctl, a: u8, s: u32)
    requires WaitsFor(st.pf, a, s) && st.pf.eps[a].inFlight.None? && st.pf.eps[a].captured == [] && req.seqnum != s
    requires WaitsFor(AfterTake(dev, st, req, k).pf, a, s)
    ensures AfterTake(dev, st, req, k).pf.eps[a].inFlight.None?
  {
    TakeStepIsTheCall(dev, st, req, k);
  }

  lemma DeliverLeavesIdle(dev: Device, st: State, act: Action, a: u8, s: u32)
    requires Enabled(dev, st, act) && act.DeliverStep? && WaitsFor(st.pf, a, s) && st.pf.eps[a].inFlight.None?
    ensures var c := Screen(st.reaper.done, act.swallow);
            var p := AfterDeliver(dev, st, act.at, c, act.k).pf;
            a in p.eps && p.eps[a] == st.pf.eps[a]
  {
    if act.at.Some? {
      DeliverStepIsTheCall(dev, st, act.at.value, Screen(st.reaper.done, act.swallow), act.k);
    }
  }

  /** Where a waiter can get to in one step: only a delivery takes it to the reaper. */
  lemma WaiterMoves(st: State, act: Action, st': State, a: u8, s: u32)
    requires Moves(st, act, st', s) && s in st.fate && st.fate[s] == WaitingAt(a)
    ensures s in st'.fate
    ensures var to := st'.fate[s];
            to == WaitingAt(a) || to.Superseded? || to.Cancelled? || to.Dropped? || (act.DeliverStep? && to.AtReaper?)
  {
  }

  /** A delivery elsewhere leaves this waiter where it is. */
  lemma DeliverElsewhere(dev: Device, st: State, act: Action, a: u8, s: u32)
    requires Enabled(dev, st, act) && act.DeliverStep? && WaitsFor(st.pf, a, s) && st.pf.eps[a].inFlight.None?
    requires forall b: u8 :: WaitOk(st.fate, st.pf, s, b)
    ensures var st' := AfterDeliver(dev, st, act.at, Screen(st.reaper.done, act.swallow), act.k);
            s in st'.fate && st'.fate[s] == WaitingAt(a)
  {
    assert WaitOk(st.fate, st.pf, s, a);
    if act.at.Some? {
      assert WaitOk(st.fate, st.pf, s, act.at.value);
      OtherWaiterStays(st, act.at.value, Screen(st.reaper.done, act.swallow), a, s);
    }
  }

  lemma OtherWaiterStays(st: State, b: u8, c: Completion, a: u8, s: u32)
    requires b in st.pf.eps && !WaitsFor(st.pf, b, s) && s in st.fate && st.fate[s] == WaitingAt(a)
    ensures s in MidDeliver(st, b, c).fate && MidDeliver(st, b, c).fate[s] == WaitingAt(a)
  {
  }

  lemma ForsakenStep(dev: Device, st: State, act: Action, a: u8, s: u32)
    requires Inv(dev, st) && Enabled(dev, st, act) && !act.NextSession? && Forsaken(st, a, s)
    ensures Forsaken(Next(dev, st, act), a, s)
  {
    PlacesMove(dev, st, act, s);
    assert WaitOk(st.fate, st.pf, s, a);
    if st.fate[s] == WaitingAt(a) {
      WaiterMoves(st, act, Next(dev, st, act), a, s);
      WaiterStep(dev, st, act, a, s);
    }
  }

  lemma WaiterStep(dev: Device, st: State, act: Action, a: u8, s: u32)
    requires Inv(dev, st) && Enabled(dev, st, act) && !act.NextSession?
    requires WaitsFor(st.pf, a, s) && (st.reaper.Finished? || st.pf.eps[a].inFlight.None?)
    requires Moves(st, act, Next(dev, st, act), s)
    ensures var st' := Next(dev, st, act);
            && (act.DeliverStep? ==> s in st'.fate && st'.fate[s] == WaitingAt(a))
            && (s in st'.fate && st'.fate[s] == WaitingAt(a) ==>
                  WaitsFor(st'.pf, a, s) && (st'.reaper.Finished? || st'.pf.eps[a].inFlight.None?))
  {
    var st' := Next(dev, st, act);
    StepKeeps(dev, st, act);
    assert WaitOk(st'.fate, st'.pf, s, a);
    if st.reaper.Finished? {
      FinishedStays(dev, st, act);
    } else {
      if act.DeliverStep? {
        DeliverElsewhere(dev, st, act, a, s);
      }
      if WaitsFor(st'.pf, a, s) {
        IdleStays(dev, st, act, a, s);
      }
    }
  }

  lemma {:induction false} ForsakenForGood(dev: Device, st: State, acts: seq<Action>, a: u8, s: u32)
    requires Inv(dev, st) && Runs(dev, st, acts) && OneSession(acts) && Forsaken(st, a, s)
    ensures Replies(After(dev, st, acts).log, s) == 0
    decreases |acts|
  {
    if acts == [] {
      assert SeqOk(dev, st, s) && WaitOk(st.fate, st.pf, s, a);
    } else {
      assert !acts[0].NextSession?;
      ForsakenStep(dev, st, acts[0], a, s);
      StepKeeps(dev, st, acts[0]);
      ForsakenForGood(dev, Next(dev, st, acts[0]), acts[1..], a, s);
    }
  }

  // ------------------------------------------------------ how it is answered

  /** A URB for this waiter is on its way, and the reaper is there to bring it. */
  ghost predicate Served(dev: Device, st: State, a: u8, s: u32) {
    && Inv(dev, st) && WaitsFor(st.pf, a, s) && st.pf.eps[a].inFlight.Some?
    && !st.reader.Arming? && st.pf.next < 0xffff_ffff
  }

  /** A reply in the reaper's hand can be posted. */
  lemma OwedIsAnswerable(dev: Device, st: State, s: u32)
    requires st.reaper.Owing? && st.reaper.reply.RetSubmitted? && st.reaper.reply.seqnum == s
    ensures Answerable(dev, st, s)
  {
    var st' := AfterPost(st, st.reaper.reply, true, st.reader, Polling);
    RepliesAppend(st.log, st.reaper.reply, s);
    assert Next(dev, st, ReaperPost(true)) == st';
    Already(dev, st', s);
    AnswerableBefore(dev, st, ReaperPost(true), s);
  }

  lemma Already(dev: Device, st: State, s: u32)
    requires Replies(st.log, s) > 0
    ensures Answerable(dev, st, s)
  {
    assert Runs(dev, st, []) && OneSession([]) && After(dev, st, []) == st;
  }

  /** The endpoint's completion, in the reaper's hand, answers its waiter. */
  lemma HeldIsAnswerable(dev: Device, st: State, a: u8, s: u32)
    requires WaitsFor(st.pf, a, s) && st.pf.next < 0xffff_ffff && st.reaper.Holding?
    requires Owns(st.reaper.done.seqnum) && st.pf.eps[a].inFlight == Some(st.reaper.done.seqnum)
    ensures Answerable(dev, st, s)
  {
    var act := DeliverStep(Some(a), false, Errno(EIO));
    var c := Screen(st.reaper.done, false);
    DeliverStepIsTheCall(dev, st, a, c, Errno(EIO));
    assert Next(dev, st, act) == AfterDeliver(dev, st, Some(a), c, Errno(EIO));
    OwedIsAnswerable(dev, Next(dev, st, act), s);
    AnswerableBefore(dev, st, act, s);
  }

  /** The kernel may complete any URB that is in the table, with its buffer as it is. */
  function Completing(t: Table, s: u32): KernelReap
    requires EntryLinked(t, s) && s in t.pending
  {
    Completes(t.pending[s].urb, 0, 0, t.heap[t.pending[s].urb].buffer)
  }

  lemma ReapOfEntry(st: State, q: u32)
    requires Mirrors(st.table) && Live(st, q) && st.reaper.Polling?
    ensures KernelMay(st.table, Completing(st.table, q))
    ensures var st' := AfterReap(st, Completing(st.table, q));
            st'.reaper.Holding? && st'.reaper.done.seqnum == q && st'.pf == st.pf
  {
  }

  lemma PollingIsAnswerable(dev: Device, st: State, a: u8, s: u32)
    requires Served(dev, st, a, s) && st.reaper.Polling?
    ensures Answerable(dev, st, s)
  {
    assert EndpointOk(dev, st, a);
    var q := st.pf.eps[a].inFlight.value;
    ReapOfEntry(st, q);
    var act := ReapStep(Completing(st.table, q));
    assert Next(dev, st, act) == AfterReap(st, Completing(st.table, q));
    HeldIsAnswerable(dev, Next(dev, st, act), a, s);
    AnswerableBefore(dev, st, act, s);
  }

  lemma OwingIsAnswerable(dev: Device, st: State, a: u8, s: u32)
    requires Served(dev, st, a, s) && st.reaper.Owing?
    ensures Answerable(dev, st, s)
  {
    var act := ReaperPost(true);
    StepKeeps(dev, st, act);
    assert Next(dev, st, act) == AfterPost(st, st.reaper.reply, true, st.reader, Polling);
    PollingIsAnswerable(dev, Next(dev, st, act), a, s);
    AnswerableBefore(dev, st, act, s);
  }

  /** A refused re-arm uses no seqnum up. */
  lemma RefusedArm(dev: Device, p: Inner, t: Table, b: u8)
    requires b in p.eps
    ensures ArmOne(dev, p, t, b, Errno(EIO)).0.next == p.next
  {
    InternalUrbIsNeverHandled(dev, InternalRequest(p.eps[b], p.next));
  }

  /** Another endpoint's completion is dealt with, and the waiter still has its URB. */
  lemma OtherDelivered(dev: Device, st: State, at: Option<u8>, a: u8, s: u32)
    requires Served(dev, st, a, s) && Enabled(dev, st, DeliverStep(at, false, Errno(EIO))) && at != Some(a)
    ensures var st' := Next(dev, st, DeliverStep(at, false, Errno(EIO)));
            Served(dev, st', a, s) && (st'.reaper.Polling? || st'.reaper.Owing?)
  {
    var c := Screen(st.reaper.done, false);
    StepKeeps(dev, st, DeliverStep(at, false, Errno(EIO)));
    if at.Some? {
      DeliverStepIsTheCall(dev, st, at.value, c, Errno(EIO));
      RefusedArm(dev, Delivered(st.pf, at.value, c.status, c.data), st.table, at.value);
      assert MidDeliver(st, at.value, c).reader == st.reader;
    }
  }

  lemma HoldingIsAnswerable(dev: Device, st: State, a: u8, s: u32)
    requires Served(dev, st, a, s) && st.reaper.Holding?
    ensures Answerable(dev, st, s)
  {
    var q := st.reaper.done.seqnum;
    if !Owns(q) {
      var act := ScreenStep(false);
      StepKeeps(dev, st, act);
      OwingIsAnswerable(dev, Next(dev, st, act), a, s);
      AnswerableBefore(dev, st, act, s);
    } else if st.pf.eps[a].inFlight == Some(q) {
      HeldIsAnswerable(dev, st, a, s);
    } else {
      var at := EndpointOf(st.pf, q);
      var act := DeliverStep(at, false, Errno(EIO));
      OtherDelivered(dev, st, at, a, s);
      BusyIsAnswerable(dev, Next(dev, st, act), a, s);
      AnswerableBefore(dev, st, act, s);
    }
  }

  /** The endpoint that has URB `q` in flight, if there is one. */
  ghost function EndpointOf(p: Inner, q: u32): (at: Option<u8>)
    ensures at.Some? ==> at.value in p.eps && p.eps[at.value].inFlight == Some(q)
    ensures at.None? ==> q !in InFlight(p)
  {
    if b :| b in p.eps && p.eps[b].inFlight == Some(q) then Some(b) else None
  }

  lemma BusyIsAnswerable(dev: Device, st: State, a: u8, s: u32)
    requires Served(dev, st, a, s) && (st.reaper.Polling? || st.reaper.Owing?)
    ensures Answerable(dev, st, s)
  {
    if st.reaper.Polling? {
      PollingIsAnswerable(dev, st, a, s);
    } else {
      OwingIsAnswerable(dev, st, a, s);
    }
  }

  lemma WaiterOfState(dev: Device, st: State, a: u8, s: u32)
    requires Inv(dev, st) && WaitsFor(st.pf, a, s) && st.pf.next < 0xffff_ffff
    ensures Answerable(dev, st, s) <==> st.pf.eps[a].inFlight.Some? && !st.reaper.Finished?
  {
    assert WaitOk(st.fate, st.pf, s, a);
    if st.pf.eps[a].inFlight.Some? && !st.reaper.Finished? {
      if st.reaper.Holding? {
        HoldingIsAnswerable(dev, st, a, s);
      } else {
        BusyIsAnswerable(dev, st, a, s);
      }
    } else {
      forall acts: seq<Action> | Runs(dev, st, acts) && OneSession(acts)
        ensures Replies(After(dev, st, acts).log, s) == 0
      {
        ForsakenForGood(dev, st, acts, a, s);
      }
    }
  }

  /**
    * A client left waiting can still be answered if and only if its endpoint has a URB in flight
    * and the reaper has not finished; otherwise no run of the session ever answers it.
    */
  lemma WaiterAnswerable(dev: Device, endpoints: map<u8, u16>, before: seq<Action>, a: u8, s: u32)
    requires FreshRun(dev, endpoints, before)
    requires var st := Reached(dev, endpoints, before); WaitsFor(st.pf, a, s) && st.pf.next < 0xffff_ffff
    ensures var st := Reached(dev, endpoints, before);
            Answerable(dev, st, s) <==> st.pf.eps[a].inFlight.Some? && !st.reaper.Finished?
  {
    ReachedHolds(dev, endpoints, before);
    WaiterOfState(dev, Reached(dev, endpoints, before), a, s);
  }

  // --------------------------------------------------------------- at the take

  /** The guards a submit has to pass: it can be built, its seqnum is free, and the kernel takes it. */
  predicate Accepts(dev: Device, t: Table, req: UrbRequest, k: Ioctl) {
    Prepare(dev, req).Built? && req.seqnum !in t.pending && k.Success?
  }

  lemma AcceptedExactly(dev: Device, t: Table, req: UrbRequest, k: Ioctl)
    ensures DoSubmit(dev, t, req, k).1.Submitted? <==> Accepts(dev, t, req, k)
  {
  }

  /** The endpoint and the reader once `take` has told its client to wait. */
  lemma TakenToWait(dev: Device, st: State, req: UrbRequest, k: Ioctl)
    requires MayTake(st, req) && st.pf.eps[Address(req.ep, In)].captured == []
    ensures var a, st' := Address(req.ep, In), AfterTake(dev, st, req, k);
            && WaitsFor(st'.pf, a, req.seqnum) && st'.reaper == st.reaper
            && (st'.pf.eps[a].inFlight.Some? <==>
                  st.pf.eps[a].inFlight.Some?
                  || Accepts(dev, st.table, InternalRequest(st.pf.eps[a], st.pf.next), k))
  {
    var a := Address(req.ep, In);
    var w := Waiter(req.seqnum, req.bufferLength);
    TakeStepIsTheCall(dev, st, req, k);
    AcceptedExactly(dev, st.table, InternalRequest(st.pf.eps[a], st.pf.next), k);
    InternalSubmitNotHandled(dev, st.pf, st.table, a, k);
    assert AfterTake(dev, st, req, k).reaper == st.reaper;
    assert Taken(st.pf, a, w).eps[a] == TakeFrom(st.pf.eps[a], w).0;
  }

  /**
    * The promise of `take` that a client told to wait will not wait for ever holds if and only
    * if the reaper is still there and a URB was in flight already or the re-arm's submit passes
    * its guards; if not, no run of the session answers the client.
    */
  lemma TakeKeepsItsPromise(dev: Device, endpoints: map<u8, u16>, before: seq<Action>, req: UrbRequest, k: Ioctl)
    requires FreshRun(dev, endpoints, before)
    requires var st := Reached(dev, endpoints, before);
             && MayTake(st, req) && st.pf.eps[Address(req.ep, In)].captured == []
             && AfterTake(dev, st, req, k).pf.next < 0xffff_ffff && st.pf.next < 0xffff_ffff
    ensures var st, a := Reached(dev, endpoints, before), Address(req.ep, In);
            Answerable(dev, AfterTake(dev, st, req, k), req.seqnum) <==>
              && !st.reaper.Finished?
              && (|| st.pf.eps[a].inFlight.Some?
                  || Accepts(dev, st.table, InternalRequest(st.pf.eps[a], st.pf.next), k))
  {
    var st := Reached(dev, endpoints, before);
    ReachedHolds(dev, endpoints, before);
    StepKeeps(dev, st, TakeStep(k));
    TakenToWait(dev, st, req, k);
    WaiterOfState(dev, AfterTake(dev, st, req, k), Address(req.ep, In), req.seqnum);
  }
}
