/**
  * What the pump promises over whole runs: any interleaving of reader and reaper, any
  * behaviour of the kernel, any number of sessions on one device.
  */
module PumpSafety {
  import opened Types
  import opened Pdu
  import opened Usbfs
  import opened Prefetch
  import opened Prefetcher
  import opened Pump
  import opened PumpInvariant

  // ------------------------------------------------- the invariant, step by step

  lemma ArmStepKeeps(dev: Device, st: State, a: u8, k: Ioctl)
    requires Inv(dev, st) && st.reader.Arming? && a in st.pf.eps && a !in st.hist && st.pf.next < 0xffff_ffff
    ensures Inv(dev, AfterArm(dev, st, a, k))
  {
    ArmEffect(dev, st, a, k);
    var st' := ArmState(dev, st, a, k);
    FirstArmKeeps(dev, st, st'.pf, st'.table, a, ArmResult(dev, st.pf, st.table, a, k));
  }

  lemma TakeStepKeeps(dev: Device, st: State, req: UrbRequest, k: Ioctl)
    requires Inv(dev, st) && st.reader == Taking(req) && st.pf.next < 0xffff_ffff
    ensures Inv(dev, AfterTake(dev, st, req, k))
  {
    var a := Address(req.ep, In);
    if a !in st.pf.eps || st.pf.eps[a].disabled {
      HandsOnlyKeeps(dev, st, Passing(req), st.reaper);
    } else {
      var mid := MidTake(st, req);
      TakeFrame(st, req);
      ArmEffect(dev, mid, a, k);
      var armed, r := ArmState(dev, mid, a, k), ArmResult(dev, mid.pf, mid.table, a, k);
      TakeKeeps(dev, st, req, armed.pf, armed.table, r,
                History(st, a) + TakeEvents(st.pf.eps[a]) + ArmEvents(mid.pf.eps[a], r));
    }
  }

  lemma DeliverStepKeeps(dev: Device, st: State, at: Option<u8>, c: Completion, k: Ioctl)
    requires Inv(dev, st) && !st.reader.Arming? && st.pf.next < 0xffff_ffff
    requires st.reaper.Holding? && Owns(st.reaper.done.seqnum)
    requires at.None? ==> st.reaper.done.seqnum !in InFlight(st.pf)
    requires at.Some? ==> MayDeliver(dev, st, at.value, c)
    ensures Inv(dev, AfterDeliver(dev, st, at, c, k))
  {
    if at.None? {
      DeliverNoneKeeps(dev, st);
    } else {
      var a := at.value;
      var mid := MidDeliver(st, a, c);
      DeliverFrame(st, a, c);
      ArmEffect(dev, mid, a, k);
      var armed, r := ArmState(dev, mid, a, k), ArmResult(dev, mid.pf, mid.table, a, k);
      DeliverKeeps(dev, st, a, c, armed.pf, armed.table, r,
                   History(st, a) + CompleteEvents(st.pf.eps[a], c.status, c.data) + ArmEvents(mid.pf.eps[a], r));
    }
  }

  lemma SubmitStepKeeps(dev: Device, st: State, req: UrbRequest, k: Ioctl)
    requires Inv(dev, st) && st.reader == Passing(req)
    ensures Inv(dev, AfterSubmit(dev, st, req, k))
  {
    SubmitEffect(dev, st.table, req, k);
    SubmitKeeps(dev, st, req, DoSubmit(dev, st.table, req, k).0, DoSubmit(dev, st.table, req, k).1);
  }

  lemma ReapStepKeeps(dev: Device, st: State, r: KernelReap)
    requires Inv(dev, st) && st.reaper.Polling? && !st.reader.Arming? && KernelMay(st.table, r)
    ensures Inv(dev, AfterReap(st, r))
  {
    if r.Completes? {
      ReapEffect(st, r);
      var x := DoReap(st.table, r).1;
      ReapKeeps(dev, st, DoReap(st.table, r).0, x.completion, x.unlinked, r.urb);
    } else {
      HandsOnlyKeeps(dev, st, st.reader, Finished);
      RaiseKeeps(dev, st.(reaper := Finished));
    }
  }

  lemma ReaperPostKeeps(dev: Device, st: State, sent: bool)
    requires Inv(dev, st) && st.reaper.Owing?
    ensures Inv(dev, Next(dev, st, ReaperPost(sent)))
  {
    if sent {
      PostKeeps(dev, st, st.reaper.reply, true, st.reader, Polling);
    } else {
      PostKeeps(dev, st, st.reaper.reply, false, st.reader, Finished);
      RaiseKeeps(dev, AfterPost(st, st.reaper.reply, false, st.reader, Finished));
    }
  }

  lemma ReaperExitKeeps(dev: Device, st: State)
    requires Inv(dev, st) && st.reaper.Polling? && !st.reader.Arming?
    ensures Inv(dev, Raise(st.(reaper := Finished)))
  {
    HandsOnlyKeeps(dev, st, st.reader, Finished);
    RaiseKeeps(dev, st.(reaper := Finished));
  }

  lemma CancelReapStepKeeps(dev: Device, st: State, r: KernelReap)
    requires Inv(dev, st) && st.phase.Cancelling? && st.phase.todo == {} && KernelMay(st.table, r)
    ensures Inv(dev, st.(table := DoReap(st.table, r).0))
  {
    if r.Completes? {
      ReapEffect(st, r);
      var x := DoReap(st.table, r).1;
      CancelReapKeeps(dev, st, DoReap(st.table, r).0, x.completion, x.unlinked, r.urb);
    } else {
      assert st.(table := DoReap(st.table, r).0) == st;
    }
  }

  lemma ScreenStepKeeps(dev: Device, st: State, swallow: bool)
    requires Inv(dev, st) && st.reaper.Holding? && !Owns(st.reaper.done.seqnum)
    ensures Inv(dev, st.(reaper := Owing(CompletionReply(Screen(st.reaper.done, swallow)))))
  {
    HandsOnlyKeeps(dev, st, st.reader, Owing(CompletionReply(Screen(st.reaper.done, swallow))));
  }

  lemma EndsDrained(dev: Device, st: State)
    requires Inv(dev, st) && st.phase == Cancelling({})
    ensures Drained(dev, st.table)
  {
    forall s | s in st.table.pending
      ensures st.table.pending[s].unlinked && st.table.heap[st.table.pending[s].urb].maxReply <= dev.maxTransfer
              && st.table.heap[st.table.pending[s].urb].maxReply < 0x8000_0000
    {
      assert SeqOk(dev, st, s);
    }
  }

  lemma NextSessionKeeps(dev: Device, st: State, endpoints: map<u8, u16>)
    requires Inv(dev, st) && st.phase.Cancelling? && st.phase.todo == {}
    ensures Inv(dev, SessionStart(st.table, endpoints))
  {
    EndsDrained(dev, st);
    SessionStartHolds(dev, st.table, endpoints);
  }

  predicate ReaderAction(act: Action) {
    || act.ArmStep? || act.Start? || act.ReadSubmit? || act.ReadUnlink? || act.TakeStep? || act.SubmitStep?
    || act.UnlinkWaiter? || act.UnlinkDevice? || act.ReaderPost? || act.ReaderExit?
  }

  lemma UnlinkStepKeeps(dev: Device, st: State, act: Action)
    requires Inv(dev, st) && Enabled(dev, st, act) && (act.ReadUnlink? || act.UnlinkWaiter? || act.UnlinkDevice?)
    ensures Inv(dev, Next(dev, st, act))
  {
    match act {
      case ReadUnlink(s, target) => HandsOnlyKeeps(dev, st, Unlinking(s, target), st.reaper);
      case UnlinkWaiter(at) =>
        if at.Some? { UnlinkWaiterKeeps(dev, st, at.value); } else { UnlinkMissKeeps(dev, st); }
      case UnlinkDevice(landed) => UnlinkDeviceKeeps(dev, st, landed);
    }
  }

  lemma CallStepKeeps(dev: Device, st: State, act: Action)
    requires Inv(dev, st) && Enabled(dev, st, act) && (act.ArmStep? || act.TakeStep? || act.SubmitStep?)
    ensures Inv(dev, Next(dev, st, act))
  {
    match act {
      case ArmStep(a, k) => ArmStepKeeps(dev, st, a, k);
      case TakeStep(k) => TakeStepKeeps(dev, st, st.reader.req, k);
      case SubmitStep(k) => SubmitStepKeeps(dev, st, st.reader.req, k);
    }
  }

  lemma ReaderStepKeeps(dev: Device, st: State, act: Action)
    requires Inv(dev, st) && Enabled(dev, st, act) && ReaderAction(act)
    ensures Inv(dev, Next(dev, st, act))
  {
    if act.ArmStep? || act.TakeStep? || act.SubmitStep? {
      CallStepKeeps(dev, st, act);
    } else if act.ReadUnlink? || act.UnlinkWaiter? || act.UnlinkDevice? {
      UnlinkStepKeeps(dev, st, act);
    } else {
      match act {
        case Start => HandsOnlyKeeps(dev, st, Reading, st.reaper);
        case ReadSubmit(c) => ReadSubmitKeeps(dev, st, c);
        case ReaderPost(sent) =>
          PostKeeps(dev, st, st.reader.reply, sent, if sent then Reading else Returned, st.reaper);
        case ReaderExit => HandsOnlyKeeps(dev, st, Returned, st.reaper);
      }
    }
  }

  lemma ReaperStepKeeps(dev: Device, st: State, act: Action)
    requires Inv(dev, st) && Enabled(dev, st, act) && !ReaderAction(act)
    ensures Inv(dev, Next(dev, st, act))
  {
    match act {
      case ReapStep(r) => ReapStepKeeps(dev, st, r);
      case DeliverStep(at, swallow, k) => DeliverStepKeeps(dev, st, at, Screen(st.reaper.done, swallow), k);
      case ScreenStep(swallow) => ScreenStepKeeps(dev, st, swallow);
      case ReaperPost(sent) => ReaperPostKeeps(dev, st, sent);
      case ReaperExit => ReaperExitKeeps(dev, st);
      case WriterStops => RaiseKeeps(dev, st);
      case ShutdownStep => ShutdownKeeps(dev, st);
      case CancelStart => CancelStartKeeps(dev, st);
      case CancelOne(s, landed) => CancelOneKeeps(dev, st, s, landed);
      case CancelReap(r) => CancelReapStepKeeps(dev, st, r);
      case NextSession(endpoints) => NextSessionKeeps(dev, st, endpoints);
    }
  }

  lemma StepKeeps(dev: Device, st: State, act: Action)
    requires Inv(dev, st) && Enabled(dev, st, act)
    ensures Inv(dev, Next(dev, st, act))
  {
    if ReaderAction(act) {
      ReaderStepKeeps(dev, st, act);
    } else {
      ReaperStepKeeps(dev, st, act);
    }
  }

  lemma {:induction false} RunKeeps(dev: Device, st: State, acts: seq<Action>)
    requires Inv(dev, st) && Runs(dev, st, acts)
    ensures Inv(dev, After(dev, st, acts))
    decreases |acts|
  {
    if acts != [] {
      StepKeeps(dev, st, acts[0]);
      RunKeeps(dev, Next(dev, st, acts[0]), acts[1..]);
    }
  }

  // --------------------------------------------------------- within one session

  /** No step of the run starts the next session. */
  predicate OneSession(acts: seq<Action>) {
    forall i :: 0 <= i < |acts| ==> !acts[i].NextSession?
  }

  /** What a session never takes back: replies sent, unlinks answered, submits read. */
  ghost predicate Extends(st: State, st': State) {
    && st'.since == st.since && st'.inherited == st.inherited && st.log <= st'.log
    && st.fate.Keys <= st'.fate.Keys
    && forall u :: u in st.unlinks ==> u in st'.unlinks && st'.unlinks[u] == st.unlinks[u]
  }

  lemma StepExtends(dev: Device, st: State, act: Action)
    requires ReaderOk(dev, st) && Enabled(dev, st, act) && !act.NextSession?
    ensures Extends(st, Next(dev, st, act))
  {
    if act.TakeStep? {
      TakeExtends(dev, st, st.reader.req, act.k);
    } else if act.SubmitStep? {
      var (t, r) := DoSubmit(dev, st.table, st.reader.req, act.k);
      SubmitExtends(st, st.reader.req, t, r);
    } else if ReaderAction(act) {
      ReaderExtends(dev, st, act);
    } else if act.DeliverStep? {
      DeliverExtends(dev, st, act.at, Screen(st.reaper.done, act.swallow), act.k);
    } else if act.ReapStep? {
      ReapExtends(st, act.r);
    } else {
      ReaperExtends(dev, st, act);
    }
  }

  lemma TakeExtends(dev: Device, st: State, req: UrbRequest, k: Ioctl)
    requires st.reader == Taking(req)
    ensures Extends(st, AfterTake(dev, st, req, k))
  {
    if MayTake(st, req) {
      TakeHands(st, req);
      MidTakeSubmits(st, req);
    }
  }

  lemma MidTakeSubmits(st: State, req: UrbRequest)
    requires MayTake(st, req)
    ensures st.fate.Keys <= MidTake(st, req).fate.Keys
  {
  }

  lemma DeliverExtends(dev: Device, st: State, at: Option<u8>, c: Completion, k: Ioctl)
    requires at.Some? ==> at.value in st.pf.eps
    ensures Extends(st, AfterDeliver(dev, st, at, c, k))
  {
    if at.Some? {
      DeliverHands(st, at.value, c);
      MidDeliverSubmits(st, at.value, c);
    }
  }

  lemma MidDeliverSubmits(st: State, a: u8, c: Completion)
    requires a in st.pf.eps
    ensures st.fate.Keys <= MidDeliver(st, a, c).fate.Keys
  {
  }

  lemma SubmitExtends(st: State, req: UrbRequest, t: Table, r: SubmitResult)
    ensures Extends(st, Submitting(st, req, t, r))
  {
  }

  lemma UnlinkWaiterExtends(st: State, at: Option<u8>)
    requires st.reader.Unlinking? && FreshSeqnum(st, st.reader.seqnum) && (at.Some? ==> at.value in st.pf.eps)
    ensures Extends(st, AfterUnlinkWaiter(st, at))
  {
  }

  lemma UnlinkDeviceExtends(st: State, landed: bool)
    requires st.reader.Discarding? && FreshSeqnum(st, st.reader.seqnum)
    ensures Extends(st, AfterUnlinkDevice(st, landed))
  {
  }

  lemma ReaderExtends(dev: Device, st: State, act: Action)
    requires ReaderOk(dev, st) && Enabled(dev, st, act) && ReaderAction(act) && !act.TakeStep? && !act.SubmitStep?
    ensures Extends(st, Next(dev, st, act))
  {
    if act.UnlinkWaiter? {
      UnlinkWaiterExtends(st, act.at);
    } else if act.UnlinkDevice? {
      UnlinkDeviceExtends(st, act.landed);
    }
  }

  lemma ReapExtends(st: State, r: KernelReap)
    requires KernelMay(st.table, r)
    ensures Extends(st, AfterReap(st, r))
  {
  }

  lemma ReaperExtends(dev: Device, st: State, act: Action)
    requires Enabled(dev, st, act) && !ReaderAction(act) && !act.NextSession?
    requires !act.DeliverStep? && !act.ReapStep?
    ensures Extends(st, Next(dev, st, act))
  {
  }

  lemma {:induction false} RunExtends(dev: Device, st: State, acts: seq<Action>)
    requires Inv(dev, st) && Runs(dev, st, acts) && OneSession(acts)
    ensures Extends(st, After(dev, st, acts))
    decreases |acts|
  {
    if acts != [] {
      var st1 := Next(dev, st, acts[0]);
      assert !acts[0].NextSession?;
      StepExtends(dev, st, acts[0]);
      StepKeeps(dev, st, acts[0]);
      RunExtends(dev, st1, acts[1..]);
    }
  }

  // ------------------------------------------------------------- conservation

  predicate Final(p: Place) {
    p.Replied? || p.Cancelled? || p.Superseded? || p.Dropped?
  }

  /** The only ways a submit gets from one place to another. */
  ghost predicate MayMove(st: State, act: Action, from: Place, to: Place) {
    match act
    case TakeStep(_) =>
      || (from.AtReader? && to.WaitingAt?)
      || (st.reader.Taking? && from == WaitingAt(Address(st.reader.req.ep, In)) && to.Superseded?)
    case SubmitStep(_) => from.AtReader? && (to.InTable? || to.Dropped?)
    case UnlinkWaiter(_) => from.WaitingAt? && to.Cancelled?
    case UnlinkDevice(_) => from.InTable? && to.Cancelled?
    case ReaderPost(sent) => from.AtReader? && to == (if sent then Replied else Dropped)
    case ReapStep(_) => from.InTable? && to.AtReaper?
    case DeliverStep(_, _, _) => from.WaitingAt? && to.AtReaper?
    case ReaperPost(sent) => from.AtReaper? && to == (if sent then Replied else Dropped)
    case ShutdownStep => from.WaitingAt? && to.Dropped?
    case CancelOne(_, _) => from.InTable? && to.Dropped?
    case _ => false
  }

  ghost predicate Moves(st: State, act: Action, st': State, s: u32) {
    && (s in st.fate ==> s in st'.fate && (st'.fate[s] == st.fate[s] || MayMove(st, act, st.fate[s], st'.fate[s])))
    && (s !in st.fate && s in st'.fate ==>
          act.ReadSubmit? && act.command.header.base.seqnum == s && st'.fate[s].AtReader?)
    && (act.ReadSubmit? && act.command.header.base.seqnum == s ==> s in st'.fate)
  }

  lemma MidTakeMoves(st: State, req: UrbRequest, k: Ioctl, s: u32)
    requires MayTake(st, req) && PlaceOk(st, s) && PlaceOk(st, req.seqnum)
    requires forall w: u32 :: WaitOk(st.fate, st.pf, w, Address(req.ep, In))
    ensures Moves(st, TakeStep(k), MidTake(st, req), s)
  {
    assert WaitOk(st.fate, st.pf, s, Address(req.ep, In));
  }

  lemma TakeMoves(dev: Device, st: State, req: UrbRequest, k: Ioctl, s: u32)
    requires st.reader == Taking(req) && PlaceOk(st, s) && PlaceOk(st, req.seqnum)
    requires forall w: u32 :: WaitOk(st.fate, st.pf, w, Address(req.ep, In))
    ensures Moves(st, TakeStep(k), AfterTake(dev, st, req, k), s)
  {
    if MayTake(st, req) {
      MidTakeMoves(st, req, k, s);
      assert AfterTake(dev, st, req, k).fate == MidTake(st, req).fate;
    }
  }

  lemma UnlinkMoves(dev: Device, st: State, act: Action, s: u32)
    requires Enabled(dev, st, act) && (act.UnlinkWaiter? || act.UnlinkDevice?)
    requires act.UnlinkWaiter? && act.at.Some? ==> WaitOk(st.fate, st.pf, st.reader.target, act.at.value)
    requires act.UnlinkDevice? && Own(st, st.reader.target) ==>
               var s := st.reader.target;
               s in st.fate && (st.fate[s].InTable? || st.fate[s].Cancelled?)
    ensures Moves(st, act, Next(dev, st, act), s)
  {
  }

  lemma SubmitMoves(st: State, req: UrbRequest, k: Ioctl, t: Table, r: SubmitResult, s: u32)
    requires st.reader == Passing(req) && PlaceOk(st, s)
    ensures Moves(st, SubmitStep(k), Submitting(st, req, t, r), s)
  {
  }

  lemma ReaderMoves(dev: Device, st: State, act: Action, s: u32)
    requires Enabled(dev, st, act) && ReaderAction(act) && PlaceOk(st, s)
    requires !act.TakeStep? && !act.SubmitStep? && !act.UnlinkWaiter? && !act.UnlinkDevice?
    ensures Moves(st, act, Next(dev, st, act), s)
  {
  }

  lemma DeliverMoves(dev: Device, st: State, at: Option<u8>, swallow: bool, k: Ioctl, s: u32)
    requires st.reaper.Holding? && (at.Some? ==> at.value in st.pf.eps && WaitOk(st.fate, st.pf, s, at.value))
    ensures Moves(st, DeliverStep(at, swallow, k), AfterDeliver(dev, st, at, Screen(st.reaper.done, swallow), k), s)
  {
  }

  lemma ReapMoves(dev: Device, st: State, r: KernelReap, s: u32)
    requires Mirrors(st.table) && KernelMay(st.table, r) && PlaceOk(st, s)
    requires r.Completes? ==> EntryOk(dev, st, st.table.heap[r.urb].seqnum)
    ensures Moves(st, ReapStep(r), AfterReap(st, r), s)
  {
    if r.Completes? {
      ReapEffect(st, r);
    }
  }

  lemma ReaperPostMoves(dev: Device, st: State, sent: bool, s: u32)
    requires st.reaper.Owing? && PlaceOk(st, s)
    ensures Moves(st, ReaperPost(sent), Next(dev, st, ReaperPost(sent)), s)
  {
  }

  lemma ReaperMoves(dev: Device, st: State, act: Action, s: u32)
    requires Enabled(dev, st, act) && !ReaderAction(act) && !act.NextSession? && PlaceOk(st, s)
    requires !act.DeliverStep? && !act.ReapStep? && !act.ReaperPost?
    ensures Moves(st, act, Next(dev, st, act), s)
  {
  }

  lemma PlacesMove(dev: Device, st: State, act: Action, s: u32)
    requires Inv(dev, st) && Enabled(dev, st, act) && !act.NextSession?
    ensures Moves(st, act, Next(dev, st, act), s)
  {
    assert SeqOk(dev, st, s);
    if act.TakeStep? {
      assert SeqOk(dev, st, st.reader.req.seqnum);
      TakeMoves(dev, st, st.reader.req, act.k, s);
    } else if act.UnlinkWaiter? || act.UnlinkDevice? {
      if act.UnlinkDevice? && Own(st, st.reader.target) {
        assert SeqOk(dev, st, st.reader.target);
        OwnTarget(dev, st, st.reader.target);
      }
      UnlinkMoves(dev, st, act, s);
    } else if act.SubmitStep? {
      var (t, r) := DoSubmit(dev, st.table, st.reader.req, act.k);
      SubmitMoves(st, st.reader.req, act.k, t, r, s);
    } else if ReaderAction(act) {
      ReaderMoves(dev, st, act, s);
    } else if act.DeliverStep? {
      DeliverMoves(dev, st, act.at, act.swallow, act.k, s);
    } else if act.ReapStep? {
      if act.r.Completes? {
        assert SeqOk(dev, st, st.table.heap[act.r.urb].seqnum);
      }
      ReapMoves(dev, st, act.r, s);
    } else if act.ReaperPost? {
      ReaperPostMoves(dev, st, act.sent, s);
    } else {
      ReaperMoves(dev, st, act, s);
    }
  }

  /** A final place is final: nothing later in the session changes what became of a submit. */
  lemma {:induction false} FinalStays(dev: Device, st: State, acts: seq<Action>, s: u32)
    requires Inv(dev, st) && Runs(dev, st, acts) && OneSession(acts)
    requires s in st.fate && Final(st.fate[s])
    ensures var st' := After(dev, st, acts); s in st'.fate && st'.fate[s] == st.fate[s]
    decreases |acts|
  {
    if acts != [] {
      assert !acts[0].NextSession?;
      PlacesMove(dev, st, acts[0], s);
      StepKeeps(dev, st, acts[0]);
      FinalStays(dev, Next(dev, st, acts[0]), acts[1..], s);
    }
  }

  /** Seqnums of the submits a run reads from its latest client, `had` being those read before it. */
  ghost function SubmitsRead(had: set<u32>, acts: seq<Action>): set<u32>
    decreases |acts|
  {
    if acts == [] then had
    else
      var now :=
        if acts[0].NextSession? then {}
        else if acts[0].ReadSubmit? then had + {acts[0].command.header.base.seqnum}
        else had;
      SubmitsRead(now, acts[1..])
  }

  lemma {:induction false} FateRecordsSubmits(dev: Device, st: State, acts: seq<Action>)
    requires Inv(dev, st) && Runs(dev, st, acts)
    ensures After(dev, st, acts).fate.Keys == SubmitsRead(st.fate.Keys, acts)
    decreases |acts|
  {
    if acts != [] {
      var st' := Next(dev, st, acts[0]);
      StepKeeps(dev, st, acts[0]);
      FateStep(dev, st, acts[0]);
      FateRecordsSubmits(dev, st', acts[1..]);
    }
  }

  lemma FateStep(dev: Device, st: State, act: Action)
    requires Inv(dev, st) && Enabled(dev, st, act)
    ensures Next(dev, st, act).fate.Keys ==
              if act.NextSession? then {}
              else if act.ReadSubmit? then st.fate.Keys + {act.command.header.base.seqnum}
              else st.fate.Keys
  {
    var st' := Next(dev, st, act);
    if !act.NextSession? {
      forall s: u32
        ensures s in st'.fate <==> s in st.fate || (act.ReadSubmit? && act.command.header.base.seqnum == s)
      {
        PlacesMove(dev, st, act, s);
      }
    }
  }

  /** A run on a newly opened device, over however many sessions. */
  ghost predicate FreshRun(dev: Device, endpoints: map<u8, u16>, acts: seq<Action>) {
    Runs(dev, SessionStart(EMPTY_TABLE, endpoints), acts)
  }

  ghost function Reached(dev: Device, endpoints: map<u8, u16>, acts: seq<Action>): State
    requires FreshRun(dev, endpoints, acts)
  {
    After(dev, SessionStart(EMPTY_TABLE, endpoints), acts)
  }

  lemma ReachedHolds(dev: Device, endpoints: map<u8, u16>, acts: seq<Action>)
    requires FreshRun(dev, endpoints, acts)
    ensures Inv(dev, Reached(dev, endpoints, acts))
  {
    SessionStartHolds(dev, EMPTY_TABLE, endpoints);
    RunKeeps(dev, SessionStart(EMPTY_TABLE, endpoints), acts);
  }

  function Indicator(b: bool): nat {
    if b then 1 else 0
  }

  /** In how many places a submit is, counting every place it could be. */
  ghost function Places(st: State, s: u32): nat {
    Indicator(s < INTERNAL_BASE && Live(st, s))
    + |set a | a in st.pf.eps && WaitsFor(st.pf, a, s)|
    + Indicator(HeldByReader(st.reader) == Some(s))
    + Indicator(HeldByReaper(st.reaper) == Some(s))
    + Replies(st.log, s)
    + Indicator(s in st.fate && st.fate[s].Cancelled?)
    + Indicator(s in st.fate && st.fate[s].Superseded?)
    + Indicator(s in st.fate && st.fate[s].Dropped?)
  }

  /**
    * Conservation: whatever the interleaving, a submit its client sent is in exactly one
    * place, and a seqnum nobody sent is nowhere. In particular no submit is answered twice.
    */
  lemma Conservation(dev: Device, endpoints: map<u8, u16>, acts: seq<Action>, s: u32)
    requires FreshRun(dev, endpoints, acts)
    ensures Places(Reached(dev, endpoints, acts), s) == Indicator(s in SubmitsRead({}, acts))
    ensures Replies(Reached(dev, endpoints, acts).log, s) <= 1
  {
    var st0, st := SessionStart(EMPTY_TABLE, endpoints), Reached(dev, endpoints, acts);
    SessionStartHolds(dev, EMPTY_TABLE, endpoints);
    ReachedHolds(dev, endpoints, acts);
    FateRecordsSubmits(dev, st0, acts);
    assert st0.fate.Keys == {};
    InOnePlace(dev, st, s);
  }

  lemma InOnePlace(dev: Device, st: State, s: u32)
    requires Inv(dev, st)
    ensures Places(st, s) == Indicator(s in st.fate) && Replies(st.log, s) <= 1
  {
    assert SeqOk(dev, st, s);
    WaitersOf(st, s);
  }

  lemma WaitersOf(st: State, s: u32)
    requires Waits(st.fate, st.pf)
    ensures |set a | a in st.pf.eps && WaitsFor(st.pf, a, s)| == Indicator(s in st.fate && st.fate[s].WaitingAt?)
  {
    var at := set a | a in st.pf.eps && WaitsFor(st.pf, a, s);
    forall a: u8
      ensures a in at <==> s in st.fate && st.fate[s] == WaitingAt(a)
    {
      assert WaitOk(st.fate, st.pf, s, a);
    }
    if s in st.fate && st.fate[s].WaitingAt? {
      assert at == {st.fate[s].address};
    } else {
      assert at == {};
    }
  }
}
