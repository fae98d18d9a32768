/**
  * What outlives a session. An internal URB left behind by one is in the way of the next, which
  * counts its own internal seqnums from the same start (crates/usbfwd-server/src/prefetch.rs:102-138,
  * 293-335); and every allocation made in any session is freed once the device has been closed.
  */
module PumpLeftovers {
  import opened Types
  import opened Pdu
  import opened Usbfs
  import opened Prefetch
  import opened Prefetcher
  import opened Pump
  import opened PumpInvariant
  import opened PumpSafety
  import opened PumpWaiters

  /** The seqnum the next internal URB would take is still in the table. */
  predicate Blocked(st: State) {
    st.pf.next in st.table.pending
  }

  /** Only a URB inherited from an earlier session can do that, and it is marked. */
  lemma BlockedByLeftover(dev: Device, st: State)
    requires Inv(dev, st) && Blocked(st)
    ensures st.pf.next in st.inherited && st.table.pending[st.pf.next].unlinked
    ensures st.table.pending[st.pf.next].urb < st.since
  {
    assert SeqOk(dev, st, st.pf.next);
  }

  /** An endpoint for which a URB can be built at all. */
  predicate Buildable(dev: Device, e: Endpoint) {
    Prepare(dev, InternalRequest(e, INTERNAL_BASE)).Built?
  }

  /** The same endpoints, whatever has happened on them. */
  predicate SameShape(p: Inner, p': Inner) {
    && p'.eps.Keys == p.eps.Keys
    && forall a :: a in p.eps ==> p'.eps[a].number == p.eps[a].number && p'.eps[a].maxPacket == p.eps[a].maxPacket
  }

  lemma ArmKeepsShape(dev: Device, p: Inner, t: Table, a: u8, k: Ioctl)
    ensures SameShape(p, ArmOne(dev, p, t, a, k).0)
  {
  }

  lemma TakenKeepsShape(p: Inner, a: u8, w: Waiter)
    requires a in p.eps
    ensures SameShape(p, Taken(p, a, w))
  {
  }

  lemma DeliveredKeepsShape(p: Inner, a: u8, status: i32, data: Report)
    requires a in p.eps
    ensures SameShape(p, Delivered(p, a, status, data))
  {
  }

  predicate NoneBuildable(dev: Device, p: Inner) {
    forall a :: a in p.eps ==> !Buildable(dev, p.eps[a])
  }

  /** No endpoint can be armed: the seqnum is taken, or none of them can have a URB built. */
  predicate NoneArmable(dev: Device, p: Inner, t: Table) {
    p.next in t.pending || NoneBuildable(dev, p)
  }

  /** Then no attempt gets an endpoint a URB, whatever the kernel would say, and no seqnum is used up. */
  lemma NoneArmed(dev: Device, p: Inner, t: Table, a: u8, k: Ioctl)
    requires NoneArmable(dev, p, t)
    ensures ArmOne(dev, p, t, a, k).0.next == p.next && ArmOne(dev, p, t, a, k).1 == t
    ensures a in p.eps ==> ArmResult(dev, p, t, a, k).Refused?
    ensures a in p.eps && WantsUrb(p.eps[a]) ==> ArmOne(dev, p, t, a, k).0.eps[a].inFlight.None?
  {
    if a in p.eps {
      InternalUrbIsNeverHandled(dev, InternalRequest(p.eps[a], p.next));
      assert Prepare(dev, InternalRequest(p.eps[a], p.next)).Built? ==> Buildable(dev, p.eps[a]);
    }
  }

  lemma ShapeDecides(dev: Device, p: Inner, p': Inner, t: Table)
    requires NoneArmable(dev, p, t) && SameShape(p, p') && p'.next == p.next
    ensures NoneArmable(dev, p', t)
  {
  }

  lemma TakeKeepsCount(dev: Device, st: State, req: UrbRequest, k: Ioctl)
    requires NoneArmable(dev, st.pf, st.table)
    ensures AfterTake(dev, st, req, k).pf.next == st.pf.next
  {
    TakeStepIsTheCall(dev, st, req, k);
    var a, w := Address(req.ep, In), Waiter(req.seqnum, req.bufferLength);
    if a in st.pf.eps {
      TakenKeepsShape(st.pf, a, w);
      ShapeDecides(dev, st.pf, Taken(st.pf, a, w), st.table);
      NoneArmed(dev, Taken(st.pf, a, w), st.table, a, k);
    }
  }

  lemma DeliverKeepsCount(dev: Device, st: State, at: Option<u8>, c: Completion, k: Ioctl)
    requires NoneArmable(dev, st.pf, st.table) && (at.Some? ==> at.value in st.pf.eps)
    ensures AfterDeliver(dev, st, at, c, k).pf.next == st.pf.next
  {
    if at.Some? {
      DeliverStepIsTheCall(dev, st, at.value, c, k);
      var p := Delivered(st.pf, at.value, c.status, c.data);
      DeliveredKeepsShape(st.pf, at.value, c.status, c.data);
      ShapeDecides(dev, st.pf, p, st.table);
      NoneArmed(dev, p, st.table, at.value, k);
    }
  }

  lemma StepKeepsCount(dev: Device, st: State, act: Action)
    requires Enabled(dev, st, act) && !act.NextSession? && NoneArmable(dev, st.pf, st.table)
    ensures Next(dev, st, act).pf.next == st.pf.next
  {
    if act.ArmStep? {
      NoneArmed(dev, st.pf, st.table, act.address, act.k);
    } else if act.TakeStep? {
      TakeKeepsCount(dev, st, st.reader.req, act.k);
    } else if act.DeliverStep? {
      DeliverKeepsCount(dev, st, act.at, Screen(st.reaper.done, act.swallow), act.k);
    } else if !TouchesEndpoints(act) {
      OthersUntouched(dev, st, act);
    }
  }

  // ------------------------------------------------ addresses are never reused

  /** An allocation of the past is as it was, or gone. */
  predicate NotReused(t: Table, t': Table, u: Addr) {
    t.next <= t'.next && (u < t.next && u in t'.heap ==> u in t.heap && t'.heap[u] == t.heap[u])
  }

  lemma SubmitNotReused(dev: Device, t: Table, req: UrbRequest, k: Ioctl, u: Addr)
    requires Mirrors(t)
    ensures NotReused(t, DoSubmit(dev, t, req, k).0, u)
  {
    SubmitEffect(dev, t, req, k);
  }

  lemma ArmNotReused(dev: Device, p: Inner, t: Table, a: u8, k: Ioctl, u: Addr)
    requires Mirrors(t)
    ensures NotReused(t, ArmOne(dev, p, t, a, k).1, u)
  {
    if a in p.eps {
      SubmitNotReused(dev, t, InternalRequest(p.eps[a], p.next), k, u);
    }
  }

  lemma TakeNotReused(dev: Device, st: State, req: UrbRequest, k: Ioctl, u: Addr)
    requires Mirrors(st.table)
    ensures NotReused(st.table, AfterTake(dev, st, req, k).table, u)
  {
    TakeStepIsTheCall(dev, st, req, k);
    var a := Address(req.ep, In);
    if a in st.pf.eps {
      ArmNotReused(dev, Taken(st.pf, a, Waiter(req.seqnum, req.bufferLength)), st.table, a, k, u);
    }
  }

  lemma DeliverNotReused(dev: Device, st: State, at: Option<u8>, c: Completion, k: Ioctl, u: Addr)
    requires Mirrors(st.table) && (at.Some? ==> at.value in st.pf.eps)
    ensures NotReused(st.table, AfterDeliver(dev, st, at, c, k).table, u)
  {
    if at.Some? {
      DeliverStepIsTheCall(dev, st, at.value, c, k);
      ArmNotReused(dev, Delivered(st.pf, at.value, c.status, c.data), st.table, at.value, k, u);
    }
  }

  lemma StepNotReused(dev: Device, st: State, act: Action, u: Addr)
    requires Enabled(dev, st, act) && !act.NextSession? && Mirrors(st.table)
    ensures NotReused(st.table, Next(dev, st, act).table, u)
  {
    if act.ArmStep? {
      ArmNotReused(dev, st.pf, st.table, act.address, act.k, u);
    } else if act.TakeStep? {
      TakeNotReused(dev, st, st.reader.req, act.k, u);
    } else if act.DeliverStep? {
      DeliverNotReused(dev, st, act.at, Screen(st.reaper.done, act.swallow), act.k, u);
    } else if act.SubmitStep? {
      SubmitNotReused(dev, st.table, st.reader.req, act.k, u);
    } else if act.ReapStep? || act.CancelReap? {
      ReapNotReused(st, act.r, u);
    } else {
      OthersNotReused(dev, st, act, u);
    }
  }

  lemma ReapNotReused(st: State, r: KernelReap, u: Addr)
    requires KernelMay(st.table, r)
    ensures NotReused(st.table, DoReap(st.table, r).0, u) && AfterReap(st, r).table == DoReap(st.table, r).0
  {
  }

  lemma OthersNotReused(dev: Device, st: State, act: Action, u: Addr)
    requires Enabled(dev, st, act) && !act.NextSession?
    requires !act.ArmStep? && !act.TakeStep? && !act.DeliverStep? && !act.SubmitStep?
    requires !act.ReapStep? && !act.CancelReap?
    ensures NotReused(st.table, Next(dev, st, act).table, u)
  {
    if act.UnlinkDevice? {
      UnlinkNotReused(st, act.landed, u);
    } else if act.CancelOne? {
      CancelNotReused(st, act.s, act.landed, u);
    } else {
      PlainStep(dev, st, act);
    }
  }

  lemma UnlinkNotReused(st: State, landed: bool, u: Addr)
    requires st.reader.Discarding?
    ensures NotReused(st.table, AfterUnlinkDevice(st, landed).table, u)
  {
  }

  lemma CancelNotReused(st: State, s: u32, landed: bool, u: Addr)
    requires st.phase.Cancelling?
    ensures NotReused(st.table, AfterCancelOne(st, s, landed).table, u)
  {
  }

  /** The steps that make no call on the device, or only one that marks entries. */
  lemma PlainStep(dev: Device, st: State, act: Action)
    requires Enabled(dev, st, act) && !act.NextSession?
    requires !act.ArmStep? && !act.TakeStep? && !act.DeliverStep? && !act.SubmitStep?
    requires !act.ReapStep? && !act.CancelReap? && !act.UnlinkDevice? && !act.CancelOne?
    ensures var t := Next(dev, st, act).table; t.heap == st.table.heap && t.next == st.table.next
  {
  }

  /** An entry at the end of a run whose allocation is older than the run was there all along. */
  lemma {:induction false} EntryWasThere(dev: Device, st: State, acts: seq<Action>, q: u32)
    requires Inv(dev, st) && Runs(dev, st, acts) && OneSession(acts)
    requires var t := After(dev, st, acts).table; q in t.pending && t.pending[q].urb < st.table.next
    ensures q in st.table.pending && st.table.pending[q].urb == After(dev, st, acts).table.pending[q].urb
    decreases |acts|
  {
    if acts != [] {
      var st1, u := Next(dev, st, acts[0]), After(dev, st, acts).table.pending[q].urb;
      assert !acts[0].NextSession?;
      StepKeeps(dev, st, acts[0]);
      StepNotReused(dev, st, acts[0], u);
      EntryWasThere(dev, st1, acts[1..], q);
    }
  }

  lemma {:induction false} RunBlocked(dev: Device, st: State, acts: seq<Action>)
    requires Inv(dev, st) && Blocked(st) && Runs(dev, st, acts) && OneSession(acts)
    requires var t, q := After(dev, st, acts).table, st.pf.next;
             q in t.pending && t.pending[q].urb == st.table.pending[q].urb
    ensures After(dev, st, acts).pf.next == st.pf.next
    decreases |acts|
  {
    if acts != [] {
      var st1, u := Next(dev, st, acts[0]), st.table.pending[st.pf.next].urb;
      assert !acts[0].NextSession?;
      StepKeeps(dev, st, acts[0]);
      StepNotReused(dev, st, acts[0], u);
      StepKeepsCount(dev, st, acts[0]);
      EntryWasThere(dev, st1, acts[1..], st.pf.next);
      RunBlocked(dev, st1, acts[1..]);
    }
  }

  /**
    * If a session finds the seqnum of its next internal URB in the table, it is a marked leftover,
    * and for as long as that is not reaped, in any run of the session, not one internal URB is submitted.
    */
  lemma BlockedUntilReaped(dev: Device, endpoints: map<u8, u16>, before: seq<Action>, acts: seq<Action>)
    requires FreshRun(dev, endpoints, before) && Blocked(Reached(dev, endpoints, before))
    requires Runs(dev, Reached(dev, endpoints, before), acts) && OneSession(acts)
    requires var st := Reached(dev, endpoints, before);
             var t, q := After(dev, st, acts).table, st.pf.next;
             q in t.pending && t.pending[q].urb == st.table.pending[q].urb
    ensures var st := Reached(dev, endpoints, before);
            && After(dev, st, acts).pf.next == st.pf.next
            && st.pf.next in st.inherited && st.table.pending[st.pf.next].unlinked
  {
    var st := Reached(dev, endpoints, before);
    ReachedHolds(dev, endpoints, before);
    BlockedByLeftover(dev, st);
    RunBlocked(dev, st, acts);
  }

  // ------------------------------------------------------- when it is not blocked

  lemma TakeKeepsShape(dev: Device, st: State, req: UrbRequest, k: Ioctl)
    ensures SameShape(st.pf, AfterTake(dev, st, req, k).pf)
  {
    TakeStepIsTheCall(dev, st, req, k);
    var a, w := Address(req.ep, In), Waiter(req.seqnum, req.bufferLength);
    if a in st.pf.eps {
      TakenKeepsShape(st.pf, a, w);
      ArmKeepsShape(dev, Taken(st.pf, a, w), st.table, a, k);
    }
  }

  lemma DeliverKeepsShape(dev: Device, st: State, at: Option<u8>, c: Completion, k: Ioctl)
    requires at.Some? ==> at.value in st.pf.eps
    ensures SameShape(st.pf, AfterDeliver(dev, st, at, c, k).pf)
  {
    if at.Some? {
      DeliverStepIsTheCall(dev, st, at.value, c, k);
      DeliveredKeepsShape(st.pf, at.value, c.status, c.data);
      ArmKeepsShape(dev, Delivered(st.pf, at.value, c.status, c.data), st.table, at.value, k);
    }
  }

  lemma UnlinkWaiterKeepsShape(st: State, at: Option<u8>)
    requires st.reader.Unlinking? && (at.Some? ==> at.value in st.pf.eps)
    ensures SameShape(st.pf, AfterUnlinkWaiter(st, at).pf)
  {
  }

  lemma StepKeepsShape(dev: Device, st: State, act: Action)
    requires Enabled(dev, st, act) && !act.NextSession?
    ensures SameShape(st.pf, Next(dev, st, act).pf)
  {
    if act.ArmStep? {
      ArmKeepsShape(dev, st.pf, st.table, act.address, act.k);
    } else if act.TakeStep? {
      TakeKeepsShape(dev, st, st.reader.req, act.k);
    } else if act.DeliverStep? {
      DeliverKeepsShape(dev, st, act.at, Screen(st.reaper.done, act.swallow), act.k);
    } else if act.UnlinkWaiter? {
      UnlinkWaiterKeepsShape(st, act.at);
    } else if act.ShutdownStep? {
      assert Next(dev, st, act).pf == ShutAll(st.pf);
    } else {
      OthersUntouched(dev, st, act);
    }
  }

  lemma {:induction false} RunUnbuildable(dev: Device, st: State, acts: seq<Action>)
    requires Runs(dev, st, acts) && OneSession(acts) && NoneBuildable(dev, st.pf)
    ensures After(dev, st, acts).pf.next == st.pf.next
    decreases |acts|
  {
    if acts != [] {
      assert !acts[0].NextSession?;
      StepKeepsCount(dev, st, acts[0]);
      StepKeepsShape(dev, st, acts[0]);
      RunUnbuildable(dev, Next(dev, st, acts[0]), acts[1..]);
    }
  }

  /** What was in the table when the session began is in it still. */
  predicate StillThere(t: Table, t': Table) {
    forall s :: s in t.pending ==> s in t'.pending && t'.pending[s].urb == t.pending[s].urb
  }

  /** In some run of a session that starts on `t`, an internal URB is submitted before any leftover is reaped. */
  ghost predicate Prefetches(dev: Device, t: Table, endpoints: map<u8, u16>) {
    exists acts: seq<Action> ::
      var st := SessionStart(t, endpoints);
      && Runs(dev, st, acts) && OneSession(acts)
      && StillThere(t, After(dev, st, acts).table) && After(dev, st, acts).pf.next > INTERNAL_BASE
  }

  lemma FirstArm(dev: Device, p: Inner, t: Table, a: u8)
    requires a in p.eps && WantsUrb(p.eps[a]) && Buildable(dev, p.eps[a])
    requires p.next == INTERNAL_BASE && INTERNAL_BASE !in t.pending
    ensures var (p', t') := ArmOne(dev, p, t, a, Success); p'.next > INTERNAL_BASE && StillThere(t, t')
  {
    AcceptedExactly(dev, t, InternalRequest(p.eps[a], INTERNAL_BASE), Success);
  }

  lemma OneStep(dev: Device, st: State, act: Action)
    requires Enabled(dev, st, act)
    ensures Runs(dev, st, [act]) && After(dev, st, [act]) == Next(dev, st, act)
  {
    assert [act][1..] == [];
  }

  lemma ArmedAtOnce(dev: Device, t: Table, endpoints: map<u8, u16>, a: u8)
    requires a in endpoints && Buildable(dev, NewEndpoint(a, endpoints[a])) && INTERNAL_BASE !in t.pending
    ensures Prefetches(dev, t, endpoints)
  {
    var st, act := SessionStart(t, endpoints), ArmStep(a, Success);
    OneStep(dev, st, act);
    ArmStepPlain(dev, st, a, Success);
    FirstArm(dev, st.pf, t, a);
    assert OneSession([act]);
  }

  lemma PrefetchingNeeds(dev: Device, t: Table, endpoints: map<u8, u16>, acts: seq<Action>)
    requires Drained(dev, t) && Runs(dev, SessionStart(t, endpoints), acts) && OneSession(acts)
    requires var st' := After(dev, SessionStart(t, endpoints), acts);
             StillThere(t, st'.table) && st'.pf.next > INTERNAL_BASE
    ensures INTERNAL_BASE !in t.pending && !NoneBuildable(dev, SessionStart(t, endpoints).pf)
  {
    var st := SessionStart(t, endpoints);
    SessionStartHolds(dev, t, endpoints);
    if INTERNAL_BASE in t.pending {
      RunBlocked(dev, st, acts);
    } else if NoneBuildable(dev, st.pf) {
      RunUnbuildable(dev, st, acts);
    }
  }

  /**
    * With a leftover under the first internal seqnum no run prefetches until it is reaped, and
    * without one some run does at once, on any device that has an endpoint to prefetch on.
    */
  lemma PrefetchesExactly(dev: Device, t: Table, endpoints: map<u8, u16>)
    requires Drained(dev, t)
    ensures Prefetches(dev, t, endpoints) <==>
              && INTERNAL_BASE !in t.pending
              && exists a :: a in endpoints && Buildable(dev, NewEndpoint(a, endpoints[a]))
  {
    var st := SessionStart(t, endpoints);
    if Prefetches(dev, t, endpoints) {
      var acts: seq<Action> :| && Runs(dev, st, acts) && OneSession(acts)
                               && StillThere(t, After(dev, st, acts).table)
                               && After(dev, st, acts).pf.next > INTERNAL_BASE;
      PrefetchingNeeds(dev, t, endpoints, acts);
    } else if a :| a in endpoints && Buildable(dev, NewEndpoint(a, endpoints[a])) {
      if INTERNAL_BASE !in t.pending {
        ArmedAtOnce(dev, t, endpoints, a);
      }
    }
  }

  // ------------------------------------------------- nothing allocated is forgotten

  /** The allocator never goes back, not even over the end of a session. */
  lemma {:induction false} RunAllocatesOn(dev: Device, st: State, acts: seq<Action>)
    requires Inv(dev, st) && Runs(dev, st, acts)
    ensures st.table.next <= After(dev, st, acts).table.next
    decreases |acts|
  {
    if acts != [] {
      if !acts[0].NextSession? {
        StepNotReused(dev, st, acts[0], 0);
      }
      StepKeeps(dev, st, acts[0]);
      RunAllocatesOn(dev, Next(dev, st, acts[0]), acts[1..]);
    }
  }

  /**
    * In every run over any number of sessions, with the device closed at any point of it: each
    * allocation made up to any moment of the run has then been freed, and freed exactly once.
    */
  lemma FreedExactlyOnce(
    dev: Device, endpoints: map<u8, u16>, before: seq<Action>, acts: seq<Action>, ks: seq<KernelReap>)
    requires FreshRun(dev, endpoints, before) && Runs(dev, Reached(dev, endpoints, before), acts)
    requires var t := After(dev, Reached(dev, endpoints, before), acts).table;
             MayDrain(MarkUnlinked(t, t.pending.Keys), ks)
    ensures var mid := Reached(dev, endpoints, before);
            var t := After(dev, mid, acts).table;
            var closed := DoClose(t, ks);
            && closed.heap == map[] && closed.kernel == {} && closed.next == t.next
            && (forall a: Addr :: a < mid.table.next ==> closed.freed[a] == 1)
            && (forall a: Addr :: closed.freed[a] == if a < t.next then 1 else 0)
  {
    var mid := Reached(dev, endpoints, before);
    ReachedHolds(dev, endpoints, before);
    RunKeeps(dev, mid, acts);
    RunAllocatesOn(dev, mid, acts);
    ClosedMeansFreedOnce(After(dev, mid, acts).table, ks);
  }
}
