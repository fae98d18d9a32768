/**
  * Cancellation, isolation between sessions, what prefetched endpoints owe their clients,
  * framing of the reply stream, and the end of a session: each over every run.
  */
module PumpResults {
  import opened Types
  import opened Pdu
  import opened Framing
  import opened Usbfs
  import opened Prefetch
  import opened Prefetcher
  import opened Pump
  import opened PumpInvariant
  import opened PumpSafety

  // ------------------------------------------------------------- cancellation

  /** The unlink reached its target among this session's own submits. */
  predicate Caught(f: Found) {
    f.WaiterDropped? || (f.Marked? && !f.inherited)
  }

  /** A caught submit is never answered, neither before the unlink nor ever after in the session. */
  lemma Cancellation(dev: Device, endpoints: map<u8, u16>, before: seq<Action>, acts: seq<Action>, u: u32)
    requires FreshRun(dev, endpoints, before)
    requires Runs(dev, Reached(dev, endpoints, before), acts) && OneSession(acts)
    requires var st := Reached(dev, endpoints, before); u in st.unlinks && Caught(st.unlinks[u].found)
    ensures var st := Reached(dev, endpoints, before);
            var st', target := After(dev, st, acts), st.unlinks[u].target;
            && Replies(st.log, target) == 0 && Replies(st'.log, target) == 0
            && HeldByReader(st'.reader) != Some(target) && HeldByReaper(st'.reaper) != Some(target)
  {
    ReachedHolds(dev, endpoints, before);
    var st := Reached(dev, endpoints, before);
    CaughtIsSilent(dev, st, [], u);
    CaughtIsSilent(dev, st, acts, u);
  }

  lemma CaughtIsSilent(dev: Device, st: State, acts: seq<Action>, u: u32)
    requires Inv(dev, st) && Runs(dev, st, acts) && OneSession(acts)
    requires u in st.unlinks && Caught(st.unlinks[u].found)
    ensures var st' := After(dev, st, acts);
            var target := st.unlinks[u].target;
            && Replies(st'.log, target) == 0
            && HeldByReader(st'.reader) != Some(target) && HeldByReaper(st'.reaper) != Some(target)
  {
    var st', target := After(dev, st, acts), st.unlinks[u].target;
    RunKeeps(dev, st, acts);
    RunExtends(dev, st, acts);
    assert UnlinkOk(st'.unlinks, st'.fate, st'.inherited, u);
    assert SeqOk(dev, st', target);
  }

  /** In a session: the target of an unlink that has been answered -ECONNRESET gets no RET_SUBMIT. */
  ghost predicate Cancels(st: State) {
    forall r :: r in st.log && r.RetUnlinked? && r.status == -ECONNRESET ==>
      r.seqnum in st.unlinks && Replies(st.log, st.unlinks[r.seqnum].target) == 0
  }

  lemma CancelsUnlessInherited(dev: Device, st: State)
    requires Inv(dev, st)
    ensures forall r :: r in st.log && r.RetUnlinked? && r.status == -ECONNRESET ==>
              && r.seqnum in st.unlinks
              && (Replies(st.log, st.unlinks[r.seqnum].target) == 0 || st.unlinks[r.seqnum].target in st.inherited)
  {
    forall r | r in st.log && r.RetUnlinked? && r.status == -ECONNRESET
      ensures r.seqnum in st.unlinks
      ensures Replies(st.log, st.unlinks[r.seqnum].target) == 0 || st.unlinks[r.seqnum].target in st.inherited
    {
      assert ReplyOk(dev, st, r);
      assert UnlinkOk(st.unlinks, st.fate, st.inherited, r.seqnum);
      assert SeqOk(dev, st, st.unlinks[r.seqnum].target);
    }
  }

  /** Every state of every session that starts on `t`. */
  ghost predicate AlwaysCancels(dev: Device, t: Table) {
    forall endpoints: map<u8, u16>, acts: seq<Action> ::
      Runs(dev, SessionStart(t, endpoints), acts) && OneSession(acts) ==>
        Cancels(After(dev, SessionStart(t, endpoints), acts))
  }

  predicate NoClientLeftover(t: Table) {
    forall s :: s in t.pending ==> s >= INTERNAL_BASE
  }

  /**
    * Cancellation holds in every run of a session exactly when the session before it left no
    * client URB behind; with one left, its seqnum can be submitted again, refused as busy,
    * and then "cancelled".
    */
  lemma CancellationExactly(dev: Device, t: Table)
    requires Drained(dev, t)
    ensures AlwaysCancels(dev, t) <==> NoClientLeftover(t)
  {
    if NoClientLeftover(t) {
      forall endpoints: map<u8, u16>, acts: seq<Action>
        | Runs(dev, SessionStart(t, endpoints), acts) && OneSession(acts)
        ensures Cancels(After(dev, SessionStart(t, endpoints), acts))
      {
        CleanStartCancels(dev, t, endpoints, acts);
      }
    } else {
      var s :| s in t.pending && s < INTERNAL_BASE;
      var acts := AnsweredThenCancelled(dev, t, s);
    }
  }

  lemma CleanStartCancels(dev: Device, t: Table, endpoints: map<u8, u16>, acts: seq<Action>)
    requires Drained(dev, t) && NoClientLeftover(t)
    requires Runs(dev, SessionStart(t, endpoints), acts) && OneSession(acts)
    ensures Cancels(After(dev, SessionStart(t, endpoints), acts))
  {
    var st0 := SessionStart(t, endpoints);
    var st := After(dev, st0, acts);
    SessionStartHolds(dev, t, endpoints);
    RunKeeps(dev, st0, acts);
    RunExtends(dev, st0, acts);
    CancelsUnlessInherited(dev, st);
    forall r | r in st.log && r.RetUnlinked? && r.status == -ECONNRESET
      ensures st.unlinks[r.seqnum].target !in t.pending
    {
      assert UnlinkOk(st.unlinks, st.fate, st.inherited, r.seqnum);
    }
  }

  lemma Prepend(dev: Device, st: State, act: Action, st1: State, acts: seq<Action>)
    requires Enabled(dev, st, act) && Next(dev, st, act) == st1 && Runs(dev, st1, acts)
    ensures Runs(dev, st, [act] + acts) && After(dev, st, [act] + acts) == After(dev, st1, acts)
  {
    assert ([act] + acts)[1..] == acts;
  }

  /** An empty control IN transfer on endpoint 0. */
  function Probe(s: u32): Command {
    Command(Header(BasicHeader(USBIP_CMD_SUBMIT, s, 0, 1, 0),
                   BodyCmdSubmit(CmdSubmit(0, 0, 0, 0, 0, [0, 0, 0, 0, 0, 0, 0, 0]))), [], [])
  }

  function SubmitAgain(s: u32, acts: seq<Action>): seq<Action> {
    [Start] + ([ReadSubmit(Probe(s))] + ([TakeStep(Success)] + ([SubmitStep(Success)] + ([ReaderPost(true)] + acts))))
  }

  function ThenUnlink(u: u32, s: u32): seq<Action> {
    [ReadUnlink(u, s)] + ([UnlinkWaiter(None)] + ([UnlinkDevice(true)] + ([ReaderPost(true)] + [])))
  }

  /** The session's state once a reused seqnum has been answered as busy. */
  function AnsweredBusy(t: Table, s: u32): State {
    SessionStart(t, map[]).(reader := Reading, fate := map[s := Replied], dirs := map[s := In],
                            log := [ErrorReply(s, -EBUSY)])
  }

  lemma BusyAnswer(dev: Device, t: Table, s: u32)
    requires s in t.pending
    ensures DoSubmit(dev, t, RequestOf(Probe(s)), Success) == (t, Refused(-EBUSY))
  {
    assert Prepare(dev, RequestOf(Probe(s))).Built?;
  }

  /** The reused seqnum on its way to the device. */
  function OnItsWay(t: Table, s: u32): State {
    SessionStart(t, map[]).(reader := Passing(RequestOf(Probe(s))), fate := map[s := AtReader], dirs := map[s := In])
  }

  lemma BusyPosted(dev: Device, t: Table, s: u32, acts: seq<Action>)
    requires s in t.pending && Runs(dev, AnsweredBusy(t, s), acts)
    ensures var more := [SubmitStep(Success)] + ([ReaderPost(true)] + acts);
            Runs(dev, OnItsWay(t, s), more) && After(dev, OnItsWay(t, s), more) == After(dev, AnsweredBusy(t, s), acts)
  {
    var st := OnItsWay(t, s).(reader := Posting(ErrorReply(s, -EBUSY)));
    Prepend(dev, st, ReaderPost(true), AnsweredBusy(t, s), acts);
    BusyAnswer(dev, t, s);
    Prepend(dev, OnItsWay(t, s), SubmitStep(Success), st, [ReaderPost(true)] + acts);
  }

  lemma LeftoverIsBusy(dev: Device, t: Table, s: u32, acts: seq<Action>)
    requires s in t.pending && s < INTERNAL_BASE && Runs(dev, AnsweredBusy(t, s), acts)
    ensures Runs(dev, SessionStart(t, map[]), SubmitAgain(s, acts))
    ensures After(dev, SessionStart(t, map[]), SubmitAgain(s, acts)) == After(dev, AnsweredBusy(t, s), acts)
  {
    var st0, req := SessionStart(t, map[]), RequestOf(Probe(s));
    var st1 := st0.(reader := Reading);
    var st2 := OnItsWay(t, s).(reader := Taking(req));
    var more := [SubmitStep(Success)] + ([ReaderPost(true)] + acts);
    BusyPosted(dev, t, s, acts);
    Prepend(dev, st2, TakeStep(Success), OnItsWay(t, s), more);
    Prepend(dev, st1, ReadSubmit(Probe(s)), st2, [TakeStep(Success)] + more);
    Prepend(dev, st0, Start, st1, [ReadSubmit(Probe(s))] + ([TakeStep(Success)] + more));
  }

  lemma ThenCancelled(dev: Device, t: Table, s: u32, u: u32)
    requires s in t.pending && s < INTERNAL_BASE && u < INTERNAL_BASE && u != s && Linked(t)
    ensures Runs(dev, AnsweredBusy(t, s), ThenUnlink(u, s))
    ensures var st := After(dev, AnsweredBusy(t, s), ThenUnlink(u, s));
            && st.log == [ErrorReply(s, -EBUSY), RetUnlinked(u, -ECONNRESET)]
            && st.unlinks == map[u := Unlinked(s, Marked(true, true))]
  {
    var st0 := AnsweredBusy(t, s);
    var st1 := st0.(reader := Unlinking(u, s));
    var st2 := st1.(reader := Discarding(u, s));
    var st3 := st2.(reader := Posting(RetUnlinked(u, -ECONNRESET)), table := DoUnlink(t, s, true).0,
                    unlinks := map[u := Unlinked(s, Marked(true, true))]);
    var st4 := st3.(reader := Reading, log := [ErrorReply(s, -EBUSY), RetUnlinked(u, -ECONNRESET)]);
    assert t.pending[s].urb in t.heap;
    Prepend(dev, st3, ReaderPost(true), st4, []);
    Prepend(dev, st2, UnlinkDevice(true), st3, [ReaderPost(true)] + []);
    Prepend(dev, st1, UnlinkWaiter(None), st2, [UnlinkDevice(true)] + ([ReaderPost(true)] + []));
    Prepend(dev, st0, ReadUnlink(u, s), st1, [UnlinkWaiter(None)] + ([UnlinkDevice(true)] + ([ReaderPost(true)] + [])));
  }

  /** A seqnum answered with an error, and then reported cancelled as well. */
  lemma AnsweredThenCancelled(dev: Device, t: Table, s: u32) returns (acts: seq<Action>)
    requires s in t.pending && s < INTERNAL_BASE && Linked(t)
    ensures Runs(dev, SessionStart(t, map[]), acts) && OneSession(acts)
    ensures !Cancels(After(dev, SessionStart(t, map[]), acts))
  {
    var u: u32 := if s == 0 then 1 else 0;
    acts := SubmitAgain(s, ThenUnlink(u, s));
    ThenCancelled(dev, t, s, u);
    LeftoverIsBusy(dev, t, s, ThenUnlink(u, s));
    NotCancelled(After(dev, AnsweredBusy(t, s), ThenUnlink(u, s)), s, u);
    ScriptIsOneSession(s, u);
  }

  lemma ScriptIsOneSession(s: u32, u: u32)
    ensures OneSession(SubmitAgain(s, ThenUnlink(u, s)))
  {
  }

  lemma NotCancelled(st: State, s: u32, u: u32)
    requires st.log == [ErrorReply(s, -EBUSY), RetUnlinked(u, -ECONNRESET)]
    requires st.unlinks == map[u := Unlinked(s, Marked(true, true))]
    ensures !Cancels(st)
  {
    assert [] + [ErrorReply(s, -EBUSY)] == [ErrorReply(s, -EBUSY)];
    assert st.log == [ErrorReply(s, -EBUSY)] + [RetUnlinked(u, -ECONNRESET)];
    RepliesAppend([ErrorReply(s, -EBUSY)], RetUnlinked(u, -ECONNRESET), s);
    RepliesAppend([], ErrorReply(s, -EBUSY), s);
    assert st.log[1] == RetUnlinked(u, -ECONNRESET);
  }

  /** Only an unlink that found nothing leaves the target's RET_SUBMIT sent, owed, or settled before. */
  lemma NothingFound(dev: Device, st: State, landed: bool)
    requires Inv(dev, st) && st.reader.Discarding? && WhatUnlinkFinds(st, st.reader.target, landed).NotFound?
    requires st.reader.target in st.fate
    ensures st.fate[st.reader.target].AtReaper? || Final(st.fate[st.reader.target])
  {
    assert SeqOk(dev, st, st.reader.target);
  }

  // ---------------------------------------------------- isolation of sessions

  /** Nothing in any later state of the next session has to do with a URB of the one before. */
  ghost predicate IsolatedFrom(st: State, t: Table) {
    && (st.reaper.Holding? ==> st.reaper.urb !in t.heap)
    && (forall s :: s in st.table.pending && st.table.pending[s].urb in t.heap ==> st.table.pending[s].unlinked)
    && (forall s: u32 :: Replies(st.log, s) > 0 ==> s in st.fate)
  }

  /**
    * Isolation: when a session's wind-down is over, however early its drain was cut short,
    * every entry left is marked; and no state of the session that follows holds or reports
    * a completion of one of them.
    */
  lemma Isolation(dev: Device, first: map<u8, u16>, before: seq<Action>, endpoints: map<u8, u16>, acts: seq<Action>)
    requires FreshRun(dev, first, before) && Enabled(dev, Reached(dev, first, before), NextSession(endpoints))
    requires Runs(dev, SessionStart(Reached(dev, first, before).table, endpoints), acts) && OneSession(acts)
    ensures var left := Reached(dev, first, before).table;
            Drained(dev, left) && IsolatedFrom(After(dev, SessionStart(left, endpoints), acts), left)
  {
    var st := Reached(dev, first, before);
    var st0 := SessionStart(st.table, endpoints);
    ReachedHolds(dev, first, before);
    EndsDrained(dev, st);
    NextSessionKeeps(dev, st, endpoints);
    RunKeeps(dev, st0, acts);
    RunExtends(dev, st0, acts);
    LaterThan(dev, After(dev, st0, acts), st.table);
  }

  lemma LaterThan(dev: Device, st: State, t: Table)
    requires Inv(dev, st) && Mirrors(t) && st.since == t.next
    ensures IsolatedFrom(st, t)
  {
    forall s | s in st.table.pending && st.table.pending[s].urb in t.heap
      ensures st.table.pending[s].unlinked
    {
      assert SeqOk(dev, st, s);
    }
    forall s: u32
      ensures Replies(st.log, s) > 0 ==> s in st.fate
    {
      assert SeqOk(dev, st, s);
    }
  }

  // ------------------------------------------------------ prefetched endpoints

  /** Once armed, every endpoint is true to its history and its URB is really on its way. */
  lemma EndpointsTrueToHistory(dev: Device, endpoints: map<u8, u16>, acts: seq<Action>, a: u8)
    requires FreshRun(dev, endpoints, acts)
    requires var st := Reached(dev, endpoints, acts); !st.reader.Arming? && a in st.pf.eps
    ensures var st := Reached(dev, endpoints, acts);
            && a in st.hist && Consistent(st.pf.eps[a], st.hist[a])
            && (st.pf.eps[a].inFlight.Some? ==> InternalOk(st, st.pf.eps[a].inFlight.value))
            && (!st.phase.Pumping? ==> st.pf.eps[a].disabled)
            && forall b :: b in st.pf.eps && b != a && st.pf.eps[a].inFlight.Some? ==>
                 st.pf.eps[b].inFlight != st.pf.eps[a].inFlight
  {
    var st := Reached(dev, endpoints, acts);
    ReachedHolds(dev, endpoints, acts);
    assert HistoryOk(st.pf, st.hist, st.reader.Arming?, a) && EndpointOk(dev, st, a);
    forall b | b in st.pf.eps && b != a && st.pf.eps[a].inFlight.Some?
      ensures st.pf.eps[b].inFlight != st.pf.eps[a].inFlight
    {
      assert Apart(st.pf, a, b);
    }
  }

  // ----------------------------------------------------- table and reply stream

  /** The table mirrors the kernel in every reachable state, and nothing is freed twice. */
  lemma TableMirrorsKernel(dev: Device, endpoints: map<u8, u16>, acts: seq<Action>)
    requires FreshRun(dev, endpoints, acts)
    ensures Mirrors(Reached(dev, endpoints, acts).table)
  {
    ReachedHolds(dev, endpoints, acts);
  }

  /** Whatever has been posted, a client that knows its submits' directions reads back exactly that. */
  lemma RepliesStayInFrame(dev: Device, endpoints: map<u8, u16>, acts: seq<Action>)
    requires FreshRun(dev, endpoints, acts)
    ensures var st := Reached(dev, endpoints, acts);
            AllReplies(RepliesBytes(st.log), st.dirs, dev.maxTransfer) == (st.log, [])
  {
    var st := Reached(dev, endpoints, acts);
    ReachedHolds(dev, endpoints, acts);
    ReplyStreamRoundTrip(st.log, st.dirs, dev.maxTransfer);
  }

  /**
    * A completion with the chord down is blanked, not dropped: the client is answered under the
    * same seqnum and status, with the device's data or, if it is to be hidden, with none.
    */
  lemma BlankedNotDropped(c: Completion, swallow: bool)
    requires |c.data| < 0x8000_0000
    ensures var r := CompletionReply(Screen(c, swallow));
            && r.seqnum == c.seqnum && r.status == c.status
            && (r.data == c.data || (r.data == [] && swallow && c.status == 0))
            && (swallow && c.status == 0 ==> r.data == [])
            && (c.actualLength == |c.data| ==> r.actualLength == |r.data|)
  {
  }

  // ---------------------------------------------------------------- wind-down

  /** Every step but a poll of the drain that finds nothing; the drain's deadline is what bounds those. */
  predicate Works(act: Action) {
    !(act.CancelReap? && !act.r.Completes?)
  }

  ghost function Working(acts: seq<Action>): nat {
    if acts == [] then 0 else Indicator(Works(acts[0])) + Working(acts[1..])
  }

  /** Steps the reaper has left with what it has in hand. */
  function Hand(r: ReaperState): nat {
    match r
    case Holding(_, _) => 3
    case Owing(_) => 2
    case Polling => 1
    case Finished => 0
  }

  /** How many more steps there can be. */
  ghost function Potential(st: State): nat {
    3 * |st.table.pending| + Hand(st.reaper)
    + (match st.phase
       case Pumping => 0
       case Shutting => |st.table.pending| + 1
       case Cancelling(todo) => |todo|)
  }

  lemma {:induction false} SubsetSize<T>(a: set<T>, b: set<T>)
    requires a <= b
    ensures |a| <= |b|
    decreases a
  {
    if a != {} {
      var x :| x in a;
      SubsetSize(a - {x}, b - {x});
    }
  }

  /** Four steps per entry, and four more. */
  lemma PotentialBound(st: State)
    requires PhaseOk(st) && !st.phase.Pumping?
    ensures Potential(st) <= 4 * |st.table.pending| + 4
  {
    if st.phase.Cancelling? {
      SubsetSize(st.phase.todo, st.table.pending.Keys);
    }
  }

  /** Past the shutdown no endpoint has a URB in flight, so no completion is delivered to one. */
  lemma NothingInFlight(dev: Device, st: State)
    requires Inv(dev, st) && !st.phase.Pumping?
    ensures InFlight(st.pf) == {} && forall a :: a in st.pf.eps ==> st.pf.eps[a].inFlight.None?
  {
    forall a | a in st.pf.eps
      ensures st.pf.eps[a].inFlight.None?
    {
      assert EndpointOk(dev, st, a) && HistoryOk(st.pf, st.hist, st.reader.Arming?, a);
    }
  }

  lemma NothingDelivered(dev: Device, st: State, act: Action)
    requires Enabled(dev, st, act) && forall a :: a in st.pf.eps ==> st.pf.eps[a].inFlight.None?
    ensures act.DeliverStep? ==> act.at.None?
  {
  }

  lemma SameSize(t: Table, s: u32, landed: bool)
    ensures |DoUnlink(t, s, landed).0.pending| == |t.pending|
  {
    assert DoUnlink(t, s, landed).0.pending.Keys == t.pending.Keys;
  }

  /** One entry fewer pays for whatever the reaper does with it. */
  lemma OneEntryLess(st: State, t: Table, reaper: ReaperState, fate: map<u32, Place>)
    requires |t.pending| == |st.table.pending| - 1 && (reaper == st.reaper || (st.reaper.Polling? && reaper.Holding?))
    requires !st.phase.Pumping?
    ensures Potential(st.(table := t, reaper := reaper, fate := fate)) + 1 <= Potential(st)
  {
  }

  lemma ReapFalls(st: State, r: KernelReap)
    requires Mirrors(st.table) && KernelMay(st.table, r) && !st.phase.Pumping? && st.reaper.Polling? && st.stop
    ensures Potential(AfterReap(st, r)) + 1 <= Potential(st)
  {
    if r.Completes? {
      ReapMirrors(st.table, r);
      var st' := AfterReap(st, r);
      OneEntryLess(st, DoReap(st.table, r).0, st'.reaper, st'.fate);
    }
  }

  lemma DrainFalls(st: State, r: KernelReap)
    requires Mirrors(st.table) && KernelMay(st.table, r) && !st.phase.Pumping?
    ensures Potential(st.(table := DoReap(st.table, r).0)) + Indicator(r.Completes?) <= Potential(st)
  {
    ReapMirrors(st.table, r);
    if r.Completes? {
      OneEntryLess(st, DoReap(st.table, r).0, st.reaper, st.fate);
    } else {
      assert st.(table := DoReap(st.table, r).0) == st;
    }
  }

  lemma PotentialFalls(dev: Device, st: State, act: Action)
    requires Enabled(dev, st, act) && !act.NextSession? && PhaseOk(st) && !st.phase.Pumping?
    requires act.DeliverStep? ==> act.at.None?
    requires Mirrors(st.table)
    ensures var st' := Next(dev, st, act);
            !st'.phase.Pumping? && Potential(st') + Indicator(Works(act)) <= Potential(st)
  {
    if act.ReapStep? {
      ReapFalls(st, act.r);
    } else if act.CancelReap? {
      DrainFalls(st, act.r);
    } else if act.CancelOne? {
      CancelFalls(st, act.s, act.landed);
    } else {
      OtherStepFalls(dev, st, act);
    }
  }

  lemma CancelFalls(st: State, s: u32, landed: bool)
    requires st.phase.Cancelling? && s in st.phase.todo
    ensures Potential(AfterCancelOne(st, s, landed)) + 1 <= Potential(st)
  {
    SameSize(st.table, s, landed);
  }

  /** Steps that leave the table as it is. */
  lemma OtherStepFalls(dev: Device, st: State, act: Action)
    requires Enabled(dev, st, act) && !act.NextSession? && PhaseOk(st) && !st.phase.Pumping?
    requires act.DeliverStep? ==> act.at.None?
    requires !act.ReapStep? && !act.CancelReap? && !act.CancelOne?
    ensures Potential(Next(dev, st, act)) + 1 <= Potential(st)
    ensures Next(dev, st, act).table == st.table
  {
  }

  /** A reap that brought a URB back. */
  predicate Reaps(act: Action) {
    (act.ReapStep? || act.CancelReap?) && act.r.Completes?
  }

  ghost function Reaped(acts: seq<Action>): nat {
    if acts == [] then 0 else Indicator(Reaps(acts[0])) + Reaped(acts[1..])
  }

  /** Nothing has been allocated, no entry is new, and the entries gone are the URBs reaped. */
  ghost predicate Shrunk(t: Table, t': Table, reaped: nat) {
    t'.next == t.next && t'.pending.Keys <= t.pending.Keys && |t'.pending| + reaped == |t.pending|
  }

  lemma ReapShrinks(st: State, r: KernelReap)
    requires Mirrors(st.table) && KernelMay(st.table, r)
    ensures Shrunk(st.table, DoReap(st.table, r).0, Indicator(r.Completes?))
    ensures AfterReap(st, r).table == DoReap(st.table, r).0
  {
    ReapMirrors(st.table, r);
  }

  lemma ShrinkStep(dev: Device, st: State, act: Action)
    requires Enabled(dev, st, act) && !act.NextSession? && PhaseOk(st) && !st.phase.Pumping?
    requires act.DeliverStep? ==> act.at.None?
    requires Mirrors(st.table)
    ensures Shrunk(st.table, Next(dev, st, act).table, Indicator(Reaps(act)))
  {
    if act.ReapStep? || act.CancelReap? {
      ReapShrinks(st, act.r);
    } else if act.CancelOne? {
      SameSize(st.table, act.s, act.landed);
      assert Next(dev, st, act).table == DoUnlink(st.table, act.s, act.landed).0;
    } else {
      OtherStepFalls(dev, st, act);
    }
  }

  lemma {:induction false} RunShrinks(dev: Device, st: State, acts: seq<Action>)
    requires Inv(dev, st) && !st.phase.Pumping? && Runs(dev, st, acts) && OneSession(acts)
    ensures Shrunk(st.table, After(dev, st, acts).table, Reaped(acts))
    decreases |acts|
  {
    if acts != [] {
      assert !acts[0].NextSession?;
      NothingInFlight(dev, st);
      NothingDelivered(dev, st, acts[0]);
      ShrinkStep(dev, st, acts[0]);
      PotentialFalls(dev, st, acts[0]);
      StepKeeps(dev, st, acts[0]);
      RunShrinks(dev, Next(dev, st, acts[0]), acts[1..]);
    }
  }

  /**
    * After `Prefetch::shutdown` no URB is ever submitted again, not even unsuccessfully, and
    * every successful reap takes one entry off the table: there are no more of them than entries.
    */
  lemma NothingSubmittedAfterShutdown(dev: Device, endpoints: map<u8, u16>, before: seq<Action>, acts: seq<Action>)
    requires FreshRun(dev, endpoints, before) && !Reached(dev, endpoints, before).phase.Pumping?
    requires Runs(dev, Reached(dev, endpoints, before), acts) && OneSession(acts)
    ensures var st := Reached(dev, endpoints, before);
            Shrunk(st.table, After(dev, st, acts).table, Reaped(acts))
  {
    ReachedHolds(dev, endpoints, before);
    RunShrinks(dev, Reached(dev, endpoints, before), acts);
  }

  lemma {:induction false} PotentialPays(dev: Device, st: State, acts: seq<Action>)
    requires Inv(dev, st) && !st.phase.Pumping? && Runs(dev, st, acts) && OneSession(acts)
    ensures Potential(After(dev, st, acts)) + Working(acts) <= Potential(st)
    decreases |acts|
  {
    if acts != [] {
      assert !acts[0].NextSession?;
      NothingInFlight(dev, st);
      NothingDelivered(dev, st, acts[0]);
      PotentialFalls(dev, st, acts[0]);
      StepKeeps(dev, st, acts[0]);
      PotentialPays(dev, Next(dev, st, acts[0]), acts[1..]);
    }
  }

  /**
    * Once the prefetcher has been shut down a session has only so many steps left, empty polls
    * of the reaper included: four for each entry of the table, and four more.
    */
  lemma WindDownEnds(dev: Device, endpoints: map<u8, u16>, before: seq<Action>, acts: seq<Action>)
    requires FreshRun(dev, endpoints, before) && !Reached(dev, endpoints, before).phase.Pumping?
    requires Runs(dev, Reached(dev, endpoints, before), acts) && OneSession(acts)
    ensures Working(acts) <= 4 * |Reached(dev, endpoints, before).table.pending| + 4
  {
    ReachedHolds(dev, endpoints, before);
    PotentialPays(dev, Reached(dev, endpoints, before), acts);
    PotentialBound(Reached(dev, endpoints, before));
  }

  /** And it is never stuck before every entry left has been marked. */
  lemma WindDownNeverStuck(dev: Device, st: State)
    requires Inv(dev, st) && !st.phase.Pumping? && st.phase != Cancelling({}) && st.pf.next < 0xffff_ffff
    ensures exists act :: Enabled(dev, st, act) && Works(act) && !act.NextSession?
  {
    NothingInFlight(dev, st);
    var act := NextStep(st);
    assert Enabled(dev, st, act);
  }

  /** A step that moves a wind-down along. */
  ghost function NextStep(st: State): Action {
    match st.reaper
    case Holding(c, _) => if Owns(c.seqnum) then DeliverStep(None, false, Success) else ScreenStep(false)
    case Owing(_) => ReaperPost(true)
    case Polling => ReaperExit
    case Finished =>
      if st.phase.Cancelling? && st.phase.todo != {} then
        var s :| s in st.phase.todo; CancelOne(s, true)
      else CancelStart
  }
}
