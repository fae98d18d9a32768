/**
  * What the client is answered (crates/usbfwd-server/src/session.rs, `reader_loop` and `reaper_loop`):
  * which step makes which reply due, in terms of what that step was given; that no other reply is ever
  * in a thread's hand or in the log; and what every RET_UNLINK says.
  */
module PumpAnswers {
  import opened Types
  import opened Pdu
  import opened Framing
  import opened Usbfs
  import opened Prefetch
  import opened Prefetcher
  import opened Pump
  import opened PumpInvariant
  import opened PumpSafety

  // ---------------------------------------------------------- what is answered

  /** An IN submit on an armed endpoint with a report waiting gets the oldest, cut to its buffer. */
  predicate BufferedReport(e: Endpoint, req: UrbRequest, r: Reply) {
    && !e.disabled && e.captured != []
    && r.RetSubmitted? && r.seqnum == req.seqnum && r.status == 0
    && r.actualLength == |r.data| && CutTo(r.data, e.captured[0], req.bufferLength)
  }

  /** A client that was waiting gets the completion's status and, if it is good, its report. */
  predicate ReportForWaiter(e: Endpoint, c: Completion, swallow: bool, r: Reply) {
    && e.waiting.Some? && r.RetSubmitted? && r.seqnum == e.waiting.value.seqnum && r.status == c.status
    && r.actualLength == |r.data|
    && (if c.status != 0 || swallow then r.data == [] else CutTo(r.data, c.data, e.waiting.value.maxLen))
  }

  /** A client's own completion, hidden if the chord is down; the length goes out as 32 bits. */
  predicate OwnCompletion(c: Completion, swallow: bool, r: Reply) {
    && r.RetSubmitted? && r.seqnum == c.seqnum && r.status == c.status
    && (if c.status == 0 && swallow && c.data != [] then r.data == [] && r.actualLength == 0
        else r.data == c.data && (r.actualLength - c.actualLength) % 0x1_0000_0000 == 0)
  }

  function FullAddress(ep: u8): u8 {
    if ep < 0x80 then ep + 0x80 else ep
  }

  /** Step `act`, taken in `st`, makes the reply `r` due. */
  ghost predicate Due(dev: Device, st: State, act: Action, r: Reply)
    requires Enabled(dev, st, act)
  {
    match act
    case ReadSubmit(c) =>
      c.header.body.submit.numberOfPackets > 0 && r == RetSubmitted(c.header.base.seqnum, -95, 0, [])
    case TakeStep(_) =>
      var a := FullAddress(st.reader.req.ep);
      a in st.pf.eps && BufferedReport(st.pf.eps[a], st.reader.req, r)
    case SubmitStep(k) =>
      var x := DoSubmit(dev, st.table, st.reader.req, k).1;
      (x.Refused? || x.Handled?) && r == RetSubmitted(st.reader.req.seqnum, x.status, 0, [])
    case UnlinkWaiter(at) => at.Some? && r == RetUnlinked(st.reader.seqnum, -104)
    case UnlinkDevice(landed) =>
      r == RetUnlinked(st.reader.seqnum, if st.reader.target in st.table.pending && landed then -104 else 0)
    case DeliverStep(at, swallow, _) =>
      at.Some? && ReportForWaiter(st.pf.eps[at.value], st.reaper.done, swallow, r)
    case ScreenStep(swallow) => OwnCompletion(st.reaper.done, swallow, r)
    case _ => false
  }

  /** A step makes at most one reply due. */
  lemma DueOneWay(dev: Device, st: State, act: Action, r: Reply, r': Reply)
    requires Enabled(dev, st, act) && Due(dev, st, act, r) && Due(dev, st, act, r')
    ensures r == r'
  {
    if act.TakeStep? {
      CutOneWay(r.data, r'.data, st.pf.eps[FullAddress(st.reader.req.ep)].captured[0], st.reader.req.bufferLength);
    } else if act.DeliverStep? {
      var w := st.pf.eps[act.at.value].waiting.value;
      if r.status == 0 && !act.swallow {
        CutOneWay(r.data, r'.data, st.reaper.done.data, w.maxLen);
      }
    }
  }

  lemma CutOneWay(d: Report, d': Report, x: Report, n: nat)
    requires CutTo(d, x, n) && CutTo(d', x, n)
    ensures d == d'
  {
    assert d == x[..|d|] && d' == x[..|d'|];
  }

  // ---------------------------------------------------------------- the reader

  /** The request a command stands for. */
  predicate Requests(c: Command, req: UrbRequest)
    requires c.header.body.BodyCmdSubmit?
  {
    var h, s := c.header.base, c.header.body.submit;
    req == UrbRequest(h.seqnum, h.ep % 0x10, if h.direction == 1 then In else Out, s.setup,
                      Max(s.transferBufferLength, 0), c.data)
  }

  /** What the reader is at once it has taken a step. */
  ghost predicate ReaderGoes(dev: Device, st: State, act: Action, st': State)
    requires Enabled(dev, st, act)
  {
    match act
    case ArmStep(_, _) => st'.reader.Arming?
    case Start => st'.reader.Reading?
    case ReadSubmit(c) =>
      if c.header.body.submit.numberOfPackets > 0 then st'.reader.Posting? && Due(dev, st, act, st'.reader.reply)
      else if c.header.base.direction == 1 then st'.reader.Taking? && Requests(c, st'.reader.req)
      else st'.reader.Passing? && Requests(c, st'.reader.req)
    case ReadUnlink(s, target) => st'.reader == Unlinking(s, target)
    case TakeStep(_) =>
      var req, a := st.reader.req, FullAddress(st.reader.req.ep);
      if a !in st.pf.eps || st.pf.eps[a].disabled then st'.reader == Passing(req)
      else if st.pf.eps[a].captured != [] then st'.reader.Posting? && Due(dev, st, act, st'.reader.reply)
      else st'.reader.Reading? && a in st'.pf.eps
           && st'.pf.eps[a].waiting == Some(Waiter(req.seqnum, req.bufferLength))
    case SubmitStep(k) =>
      match DoSubmit(dev, st.table, st.reader.req, k).1 {
        case Submitted => st'.reader.Reading?
        case Fatal => st'.reader.Returned?
        case _ => st'.reader.Posting? && Due(dev, st, act, st'.reader.reply)
      }
    case UnlinkWaiter(at) =>
      if at.None? then st'.reader == Discarding(st.reader.seqnum, st.reader.target)
      else st'.reader.Posting? && Due(dev, st, act, st'.reader.reply)
    case UnlinkDevice(_) => st'.reader.Posting? && Due(dev, st, act, st'.reader.reply)
    case ReaderPost(sent) => if sent then st'.reader.Reading? else st'.reader.Returned?
    case ReaderExit => st'.reader.Returned?
    case _ => st'.reader == st.reader
  }

  lemma TakeAnswers(e: Endpoint, req: UrbRequest)
    requires e.captured != [] ==> |e.captured[0]| < 0x8000_0000
    ensures var reader := ReaderAfter(TakeFrom(e, Waiter(req.seqnum, req.bufferLength)).1, req);
            if e.disabled then reader == Passing(req)
            else if e.captured != [] then reader.Posting? && BufferedReport(e, req, reader.reply)
            else reader.Reading?
  {
  }

  lemma TakeGoes(dev: Device, st: State, k: Ioctl)
    requires Inv(dev, st) && Enabled(dev, st, TakeStep(k))
    ensures ReaderGoes(dev, st, TakeStep(k), AfterTake(dev, st, st.reader.req, k))
  {
    var req, a := st.reader.req, Address(st.reader.req.ep, In);
    assert FullAddress(req.ep) == a;
    if a in st.pf.eps && !st.pf.eps[a].disabled {
      assert EndpointOk(dev, st, a);
      assert st.pf.eps[a].captured != [] ==> st.pf.eps[a].captured[0] in st.pf.eps[a].captured;
      TakeAnswers(st.pf.eps[a], req);
      TakeWaits(dev, st, req, k);
    }
  }

  lemma TakeWaits(dev: Device, st: State, req: UrbRequest, k: Ioctl)
    requires MayTake(st, req)
    ensures var a, w := Address(req.ep, In), Waiter(req.seqnum, req.bufferLength);
            var st' := AfterTake(dev, st, req, k);
            && st'.reader == ReaderAfter(TakeFrom(st.pf.eps[a], w).1, req) && a in st'.pf.eps
            && (st.pf.eps[a].captured == [] ==> st'.pf.eps[a].waiting == Some(w))
  {
    var a := Address(req.ep, In);
    ArmLeavesWaiter(dev, Taken(st.pf, a, Waiter(req.seqnum, req.bufferLength)), st.table, a, k);
    TakeStepIsTheCall(dev, st, req, k);
  }

  lemma ArmLeavesWaiter(dev: Device, p: Inner, t: Table, a: u8, k: Ioctl)
    requires a in p.eps
    ensures a in ArmOne(dev, p, t, a, k).0.eps && ArmOne(dev, p, t, a, k).0.eps[a].waiting == p.eps[a].waiting
  {
  }

  lemma SubmitGoes(dev: Device, st: State, k: Ioctl)
    requires Enabled(dev, st, SubmitStep(k))
    ensures ReaderGoes(dev, st, SubmitStep(k), AfterSubmit(dev, st, st.reader.req, k))
  {
  }

  lemma UnlinkGoes(dev: Device, st: State, act: Action)
    requires Enabled(dev, st, act) && (act.UnlinkWaiter? || act.UnlinkDevice?)
    ensures ReaderGoes(dev, st, act, Next(dev, st, act))
  {
  }

  lemma DeliverLeavesReader(dev: Device, st: State, act: Action)
    requires Enabled(dev, st, act) && act.DeliverStep?
    ensures Next(dev, st, act).reader == st.reader
  {
    if act.at.Some? {
      assert MidDeliver(st, act.at.value, Screen(st.reaper.done, act.swallow)).reader == st.reader;
    }
  }

  /** Every step of the reader, and that no other step touches it. */
  lemma ReaderGoesOn(dev: Device, st: State, act: Action)
    requires Inv(dev, st) && Enabled(dev, st, act) && !act.NextSession?
    ensures ReaderGoes(dev, st, act, Next(dev, st, act))
  {
    if act.TakeStep? {
      TakeGoes(dev, st, act.k);
    } else if act.SubmitStep? {
      SubmitGoes(dev, st, act.k);
    } else if act.UnlinkWaiter? || act.UnlinkDevice? {
      UnlinkGoes(dev, st, act);
    } else if act.DeliverStep? {
      DeliverLeavesReader(dev, st, act);
    }
  }

  // ---------------------------------------------------------------- the reaper

  /** What the reaper is at once it has taken a step. */
  ghost predicate ReaperGoes(dev: Device, st: State, act: Action, st': State)
    requires Enabled(dev, st, act)
  {
    match act
    case ReapStep(Nothing) => if st.stop then st'.reaper.Finished? else st'.reaper.Polling?
    case ReapStep(Failure) => st'.reaper.Finished? && st'.stop
    case ReapStep(Completes(a, status, actual, filled)) =>
      var u := st.table.heap[a];
      if u.seqnum in st.table.pending && st.table.pending[u.seqnum].unlinked then st'.reaper.Polling?
      else st'.reaper.Holding? && st'.reaper.urb == a && CompletesAs(u, status, actual, filled, st'.reaper.done)
    case DeliverStep(at, _, _) =>
      if at.None? || st.pf.eps[at.value].waiting.None? then st'.reaper.Polling?
      else st'.reaper.Owing? && Due(dev, st, act, st'.reaper.reply)
    case ScreenStep(_) => st'.reaper.Owing? && Due(dev, st, act, st'.reaper.reply)
    case ReaperPost(sent) => if sent then st'.reaper.Polling? else st'.reaper.Finished? && st'.stop
    case ReaperExit => st'.reaper.Finished? && st'.stop
    case _ => st'.reaper == st.reaper
  }

  lemma ReapGoes(dev: Device, st: State, r: KernelReap)
    requires Enabled(dev, st, ReapStep(r))
    ensures ReaperGoes(dev, st, ReapStep(r), AfterReap(st, r))
  {
    if r.Completes? {
      ReapCompletes(st.table.heap[r.urb], r.status, r.actual, r.filled);
    }
  }

  lemma CompleteAnswers(e: Endpoint, c: Completion, swallow: bool)
    requires |c.data| < 0x8000_0000
    ensures var shown := Screen(c, swallow);
            var reaper := ReaperAfter(Complete(e, shown.status, shown.data).1);
            if e.waiting.None? then reaper.Polling? else reaper.Owing? && ReportForWaiter(e, c, swallow, reaper.reply)
  {
  }

  lemma DeliverGoes(dev: Device, st: State, act: Action)
    requires Inv(dev, st) && Enabled(dev, st, act) && act.DeliverStep?
    ensures ReaperGoes(dev, st, act, Next(dev, st, act))
  {
    if act.at.Some? {
      var a, c := act.at.value, Screen(st.reaper.done, act.swallow);
      CompleteAnswers(st.pf.eps[a], st.reaper.done, act.swallow);
      DeliveredTo(dev, st, a, c, act.k);
    }
  }

  lemma DeliveredTo(dev: Device, st: State, a: u8, c: Completion, k: Ioctl)
    requires a in st.pf.eps
    ensures AfterDeliver(dev, st, Some(a), c, k).reaper == ReaperAfter(Complete(st.pf.eps[a], c.status, c.data).1)
  {
    DeliverStepIsTheCall(dev, st, a, c, k);
  }

  lemma ReaderLeavesReaper(dev: Device, st: State, act: Action)
    requires Enabled(dev, st, act) && (act.TakeStep? || act.SubmitStep?)
    ensures Next(dev, st, act).reaper == st.reaper
  {
    if act.TakeStep? {
      var a := Address(st.reader.req.ep, In);
      if a in st.pf.eps && !st.pf.eps[a].disabled {
        assert MidTake(st, st.reader.req).reaper == st.reaper;
      }
    }
  }

  /** Every step of the reaper, and that no other step touches it. */
  lemma ReaperGoesOn(dev: Device, st: State, act: Action)
    requires Inv(dev, st) && Enabled(dev, st, act) && !act.NextSession?
    ensures ReaperGoes(dev, st, act, Next(dev, st, act))
  {
    if act.ReapStep? {
      ReapGoes(dev, st, act.r);
    } else if act.DeliverStep? {
      DeliverGoes(dev, st, act);
    } else if act.TakeStep? || act.SubmitStep? {
      ReaderLeavesReaper(dev, st, act);
    }
  }

  // ------------------------------------------------- the device and the endpoints

  /** The call each step makes on the device; the arming steps have lemmas of their own in `Pump`. */
  ghost predicate TableGoes(dev: Device, st: State, act: Action, t': Table)
    requires Enabled(dev, st, act)
  {
    match act
    case SubmitStep(k) => t' == DoSubmit(dev, st.table, st.reader.req, k).0
    case UnlinkDevice(landed) => t' == DoUnlink(st.table, st.reader.target, landed).0
    case ReapStep(r) => t' == DoReap(st.table, r).0
    case CancelOne(s, landed) => t' == DoUnlink(st.table, s, landed).0
    case CancelReap(r) => t' == DoReap(st.table, r).0
    case ShutdownStep =>
      && t'.pending.Keys == st.table.pending.Keys && t'.heap == st.table.heap
      && forall s :: s in t'.pending ==>
           t'.pending[s] == if s in InFlight(st.pf) then Entry(st.table.pending[s].urb, true) else st.table.pending[s]
    case _ => t' == st.table
  }

  lemma TableMoves(dev: Device, st: State, act: Action)
    requires Enabled(dev, st, act) && !act.ArmStep? && !act.TakeStep? && !act.DeliverStep?
    ensures TableGoes(dev, st, act, Next(dev, st, act).table)
  {
    if act.ReapStep? {
      ReapNotes(st, act.r);
    } else if act.SubmitStep? {
      SubmitNotes(dev, st, st.reader.req, act.k);
    }
  }

  lemma ReapNotes(st: State, r: KernelReap)
    requires KernelMay(st.table, r)
    ensures AfterReap(st, r).table == DoReap(st.table, r).0
    ensures AfterReap(st, r).log == st.log && AfterReap(st, r).unlinks == st.unlinks
  {
  }

  lemma SubmitNotes(dev: Device, st: State, req: UrbRequest, k: Ioctl)
    ensures AfterSubmit(dev, st, req, k).table == DoSubmit(dev, st.table, req, k).0
    ensures AfterSubmit(dev, st, req, k).log == st.log && AfterSubmit(dev, st, req, k).unlinks == st.unlinks
  {
  }

  /** After the shutdown every endpoint is given up on, idle and empty, and whoever waited is let go of. */
  lemma ShutdownEmpties(dev: Device, st: State, a: u8, s: u32)
    requires Inv(dev, st) && Enabled(dev, st, ShutdownStep)
    ensures var st' := Next(dev, st, ShutdownStep);
            && st'.pf.eps.Keys == st.pf.eps.Keys && st'.stop && st'.phase.Shutting?
            && (a in st'.pf.eps ==>
                  var e := st'.pf.eps[a];
                  e.disabled && e.captured == [] && e.waiting.None? && e.inFlight.None?)
            && (WaitsFor(st.pf, a, s) ==> s in st'.fate && st'.fate[s].Dropped?)
  {
    assert WaitOk(st.fate, st.pf, s, a);
  }

  // --------------------------------------------------------- what is on record

  /** What an unlink finds in the device's table. */
  predicate FoundInTable(st: State, target: u32, landed: bool, f: Found) {
    if target !in st.table.pending then f.NotFound?
    else f == Marked(landed, st.table.pending[target].urb < st.since)
  }

  /** What a step adds to the log, and to what is known of unlinks. */
  ghost predicate RecordsGo(dev: Device, st: State, act: Action, st': State)
    requires Enabled(dev, st, act)
  {
    && st'.log == (match act
                   case ReaderPost(sent) => if sent then st.log + [st.reader.reply] else st.log
                   case ReaperPost(sent) => if sent then st.log + [st.reaper.reply] else st.log
                   case _ => st.log)
    && match act
       case UnlinkWaiter(at) =>
         if at.None? then st'.unlinks == st.unlinks
         else
           && st'.unlinks == st.unlinks[st.reader.seqnum := Unlinked(st.reader.target, WaiterDropped)]
           && at.value in st'.pf.eps && st'.pf.eps[at.value].waiting.None?
       case UnlinkDevice(landed) =>
         exists f :: FoundInTable(st, st.reader.target, landed, f)
                     && st'.unlinks == st.unlinks[st.reader.seqnum := Unlinked(st.reader.target, f)]
       case _ => st'.unlinks == st.unlinks
  }

  lemma TakeRecords(dev: Device, st: State, req: UrbRequest, k: Ioctl)
    ensures var st' := AfterTake(dev, st, req, k); st'.log == st.log && st'.unlinks == st.unlinks
  {
    var a := Address(req.ep, In);
    if a in st.pf.eps && !st.pf.eps[a].disabled {
      assert MidTake(st, req).log == st.log && MidTake(st, req).unlinks == st.unlinks;
    }
  }

  lemma DeliverRecords(dev: Device, st: State, at: Option<u8>, c: Completion, k: Ioctl)
    requires at.Some? ==> at.value in st.pf.eps
    ensures var st' := AfterDeliver(dev, st, at, c, k); st'.log == st.log && st'.unlinks == st.unlinks
  {
    if at.Some? {
      assert MidDeliver(st, at.value, c).log == st.log && MidDeliver(st, at.value, c).unlinks == st.unlinks;
    }
  }

  lemma UnlinkRecords(dev: Device, st: State, act: Action)
    requires Enabled(dev, st, act) && (act.UnlinkWaiter? || act.UnlinkDevice?)
    ensures RecordsGo(dev, st, act, Next(dev, st, act))
  {
    if act.UnlinkDevice? {
      assert FoundInTable(st, st.reader.target, act.landed, WhatUnlinkFinds(st, st.reader.target, act.landed));
    }
  }

  lemma RecordsMove(dev: Device, st: State, act: Action)
    requires Enabled(dev, st, act) && !act.NextSession?
    ensures RecordsGo(dev, st, act, Next(dev, st, act))
  {
    if act.TakeStep? {
      TakeRecords(dev, st, st.reader.req, act.k);
    } else if act.DeliverStep? {
      DeliverRecords(dev, st, act.at, Screen(st.reaper.done, act.swallow), act.k);
    } else if act.UnlinkWaiter? || act.UnlinkDevice? {
      UnlinkRecords(dev, st, act);
    } else if act.ReapStep? {
      ReapNotes(st, act.r);
    } else if act.SubmitStep? {
      SubmitNotes(dev, st, st.reader.req, act.k);
    }
  }

  /** Who raises the stop flag: a writer or a reaper that ends, and the wind-down; nobody lowers it. */
  lemma StopRaised(dev: Device, st: State, act: Action)
    requires Enabled(dev, st, act) && !act.NextSession?
    ensures Next(dev, st, act).stop <==>
              || st.stop || act.WriterStops? || act.ShutdownStep? || act.ReaperExit?
              || act == ReapStep(Failure) || act == ReaperPost(false)
  {
    if act.TakeStep? {
      TakeLeavesStop(dev, st, st.reader.req, act.k);
    } else if act.DeliverStep? {
      DeliverLeavesStop(dev, st, act.at, Screen(st.reaper.done, act.swallow), act.k);
    } else if act.SubmitStep? {
      SubmitLeavesStop(dev, st, st.reader.req, act.k);
    }
  }

  lemma TakeLeavesStop(dev: Device, st: State, req: UrbRequest, k: Ioctl)
    ensures AfterTake(dev, st, req, k).stop == st.stop
  {
    var a := Address(req.ep, In);
    if a in st.pf.eps && !st.pf.eps[a].disabled {
      assert MidTake(st, req).stop == st.stop;
    }
  }

  lemma DeliverLeavesStop(dev: Device, st: State, at: Option<u8>, c: Completion, k: Ioctl)
    requires at.Some? ==> at.value in st.pf.eps
    ensures AfterDeliver(dev, st, at, c, k).stop == st.stop
  {
    if at.Some? {
      assert MidDeliver(st, at.value, c).stop == st.stop;
    }
  }

  lemma SubmitLeavesStop(dev: Device, st: State, req: UrbRequest, k: Ioctl)
    ensures AfterSubmit(dev, st, req, k).stop == st.stop
  {
  }

  // ------------------------------------------------------------ over whole runs

  /** Sent, or in a thread's hand. */
  predicate InPlay(st: State, r: Reply) {
    r in st.log || st.reader == Posting(r) || st.reaper == Owing(r)
  }

  /** Some step of the run made `r` due. */
  ghost predicate WasDue(dev: Device, st: State, acts: seq<Action>, r: Reply)
    requires Runs(dev, st, acts)
    decreases |acts|
  {
    acts != [] && (Due(dev, st, acts[0], r) || WasDue(dev, Next(dev, st, acts[0]), acts[1..], r))
  }

  lemma NewInPlay(dev: Device, st: State, act: Action, r: Reply)
    requires Inv(dev, st) && Enabled(dev, st, act) && !act.NextSession? && InPlay(Next(dev, st, act), r)
    ensures InPlay(st, r) || Due(dev, st, act, r)
  {
    ReaderGoesOn(dev, st, act);
    ReaperGoesOn(dev, st, act);
    RecordsMove(dev, st, act);
  }

  lemma {:induction false} OnlyDueInPlay(dev: Device, st: State, acts: seq<Action>, r: Reply)
    requires Inv(dev, st) && Runs(dev, st, acts) && OneSession(acts) && InPlay(After(dev, st, acts), r)
    ensures InPlay(st, r) || WasDue(dev, st, acts, r)
    decreases |acts|
  {
    if acts != [] {
      assert !acts[0].NextSession?;
      StepKeeps(dev, st, acts[0]);
      OnlyDueInPlay(dev, Next(dev, st, acts[0]), acts[1..], r);
      if InPlay(Next(dev, st, acts[0]), r) {
        NewInPlay(dev, st, acts[0], r);
      }
    }
  }

  /**
    * In any run of a session, whatever table the ones before left it: each reply sent or in hand
    * was made due by a step of that run, with just the contents that step gives it.
    */
  lemma EveryReplyWasDue(dev: Device, t: Table, endpoints: map<u8, u16>, acts: seq<Action>, r: Reply)
    requires Drained(dev, t) && Runs(dev, SessionStart(t, endpoints), acts) && OneSession(acts)
    requires InPlay(After(dev, SessionStart(t, endpoints), acts), r)
    ensures WasDue(dev, SessionStart(t, endpoints), acts, r)
  {
    var st := SessionStart(t, endpoints);
    SessionStartHolds(dev, t, endpoints);
    NothingInPlay(t, endpoints, r);
    OnlyDueInPlay(dev, st, acts, r);
  }

  lemma NothingInPlay(t: Table, endpoints: map<u8, u16>, r: Reply)
    ensures !InPlay(SessionStart(t, endpoints), r)
  {
  }

  /**
    * In every run each RET_UNLINK, sent or in hand, says -104 (ECONNRESET) if its unlink dropped a
    * waiter or its discard landed, and 0 if it did neither.
    */
  lemma UnlinkAnsweredExactly(dev: Device, endpoints: map<u8, u16>, acts: seq<Action>, r: Reply)
    requires FreshRun(dev, endpoints, acts) && InPlay(Reached(dev, endpoints, acts), r) && r.RetUnlinked?
    ensures var st := Reached(dev, endpoints, acts);
            r.seqnum in st.unlinks
            && var f := st.unlinks[r.seqnum].found;
               r.status == if f.WaiterDropped? || (f.Marked? && f.landed) then -104 else 0
  {
    ReachedHolds(dev, endpoints, acts);
    assert ReplyOk(dev, Reached(dev, endpoints, acts), r);
  }

  /** The device is asked with the same result: what the pump records is what `unlink` answers. */
  lemma UnlinkStepIsTheCall(dev: Device, st: State, landed: bool)
    requires Inv(dev, st) && Enabled(dev, st, UnlinkDevice(landed))
    ensures var st' := Next(dev, st, UnlinkDevice(landed));
            var call := DoUnlink(st.table, st.reader.target, landed);
            && st'.table == call.0 && st'.reader == Posting(RetUnlinked(st.reader.seqnum, if call.1 then -104 else 0))
  {
    ReaderGoesOn(dev, st, UnlinkDevice(landed));
  }
}
