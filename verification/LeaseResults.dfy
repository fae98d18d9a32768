/**
  * What the lease, suspension and chord protocol promises over every interleaving.
  */
module LeaseResults {
  import opened Types
  import opened Chord
  import opened Toggle
  import opened Lease

  lemma StartHolds()
    ensures Inv(START)
  {
  }

  lemma ReachedHolds(hold: nat, acts: seq<Action>)
    requires Runs(hold, START, acts)
    ensures Inv(After(hold, START, acts))
  {
    StartHolds();
    RunKeeps(hold, START, acts);
  }

  /**
    * At most one connection holds a device; the busy set is exactly what is held; and a
    * session that got past `open` finds its device withheld only if its own reaper did it.
    */
  lemma MutualExclusion(hold: nat, acts: seq<Action>, i: nat, j: nat)
    requires Runs(hold, START, acts)
    requires var st := After(hold, START, acts); i in st.sessions && j in st.sessions
    ensures var st := After(hold, START, acts);
            var x, y := st.sessions[i], st.sessions[j];
            && (Holds(x) && Holds(y) && x.b == y.b ==> i == j)
            && (PastOpen(x) && x.b in st.suspended ==> x == Ending(x.b, true))
            && st.busy == set k | k in st.sessions && Holds(st.sessions[k]) :: st.sessions[k].b
  {
    var st := After(hold, START, acts);
    ReachedHolds(hold, acts);
    assert Exclusive(st, i, j) && SessionOk(st, i);
    var held := set k | k in st.sessions && Holds(st.sessions[k]) :: st.sessions[k].b;
    forall b
      ensures b in st.busy <==> b in held
    {
      if b in held {
        var k :| k in st.sessions && Holds(st.sessions[k]) && st.sessions[k].b == b;
        assert SessionOk(st, k);
      }
      assert b in st.busy ==> HeldBySomeone(st, b);
    }
  }

  /** The detector behind a chord-caused toggle that is about to happen, and its device. */
  ghost predicate Toggles(st: State, act: Action, b: Busid, track: Track) {
    || (act.SuspendStep? && Enabled(st, act) && b == st.sessions[act.id].b && track == st.sessions[act.id].track)
    || (act.ResumeStep? && st.watching.Resuming? && b == st.watching.b
        && b in st.watched && track == st.watched[b].track)
  }

  /**
    * No oscillation: whatever chord-caused toggle comes next, its detector has seen the chord
    * released since the device's last one, unless the device is stale.
    */
  lemma NoOscillation(hold: nat, acts: seq<Action>, act: Action, b: Busid, track: Track)
    requires Runs(hold, START, acts)
    requires var st := After(hold, START, acts); Toggles(st, act, b, track) && (act.ResumeStep? ==> b !in st.stale)
    ensures track.released > LastToggle(After(hold, START, acts), b)
  {
    var st := After(hold, START, acts);
    ReachedHolds(hold, acts);
    if act.SuspendStep? {
      assert SessionOk(st, act.id);
    }
  }

  /** A connection is let in to exactly what the gated list offers: a device that exists and is not withheld. */
  lemma ConnectsToOffered(st: State, id: nat, b: Busid, inner: seq<Busid>)
    requires b in inner
    ensures Enabled(st, Connect(id, b)) <==> id !in st.sessions && b in Offered(inner, st.suspended)
  {
    OfferedExactly(inner, st.suspended, b);
  }

  /** The import of connection `id` has been given up or is over: no trace of it, and its device is free again. */
  ghost predicate Gone(st: State, st': State, id: nat, held: bool)
    requires id in st.sessions
  {
    && st'.sessions == st.sessions - {id} && st'.suspended == st.suspended
    && forall b :: b in st'.busy <==> b in st.busy && !(held && b == st.sessions[id].b)
  }

  predicate Becomes(st: State, st': State, id: nat, x: Session) {
    st'.sessions == st.sessions[id := x] && st'.busy == st.busy
  }

  /** What each step makes of its own connection: in particular, a second importer is refused and leaves no trace. */
  lemma ImportGoesOn(hold: nat, st: State, act: Action)
    requires Inv(st) && Enabled(st, act) && Local(act) && !act.Connect?
    ensures var st', id, x := Next(hold, st, act), act.id, st.sessions[act.id];
            match act
            case Acquire(_) =>
              if x.b in st.busy then Gone(st, st', id, false)
              else st'.sessions == st.sessions[id := Leased(x.b)] && st'.busy == st.busy + {x.b}
            case Open(_, ok) =>
              if ok && x.b !in st.suspended then Becomes(st, st', id, Opened(x.b)) else Gone(st, st', id, true)
            case Begin(_, ok) =>
              if ok then Becomes(st, st', id, Running(x.b, Track(Hold(None, false), -1), false))
              else Gone(st, st', id, true)
            case FeedSession(_, obs, now) =>
              var (state, v) := Feed(x.track.state, hold, Seen(obs, now));
              && id in st'.sessions && Becomes(st, st', id, st'.sessions[id])
              && st'.sessions[id].Running? && st'.sessions[id].b == x.b && st'.sessions[id].track.state == state
              && (st'.sessions[id].fired <==> x.fired || v.fired)
            case ReaperStops(_) => Becomes(st, st', id, Ending(x.b, false))
            case Disconnect(_) => Gone(st, st', id, true)
  {
    assert SessionOk(st, act.id);
  }

  // ------------------------------------------------------ what is withheld

  /** The chord in a session takes `b` off offer. */
  predicate Withholds(st: State, act: Action, b: Busid) {
    act.SuspendStep? && Enabled(st, act) && st.sessions[act.id].b == b
  }

  /** The chord seen by the watcher puts it back, and so does SIGHUP. */
  predicate PutsBack(st: State, act: Action, b: Busid) {
    act.Hangup? || (act.ResumeStep? && Enabled(st, act) && st.watching.b == b)
  }

  /** Whether the last of these in the run, if there was one, was to withhold `b`. */
  predicate LastWithheld(hold: nat, st: State, acts: seq<Action>, b: Busid, before: bool)
    requires Runs(hold, st, acts)
    decreases |acts|
  {
    if acts == [] then before
    else
      LastWithheld(hold, Next(hold, st, acts[0]), acts[1..], b,
                   if Withholds(st, acts[0], b) then true else if PutsBack(st, acts[0], b) then false else before)
  }

  lemma {:induction false} WithheldSince(hold: nat, st: State, acts: seq<Action>, b: Busid)
    requires Runs(hold, st, acts)
    ensures b in After(hold, st, acts).suspended <==> LastWithheld(hold, st, acts, b, b in st.suspended)
    decreases |acts|
  {
    if acts != [] {
      WithheldStep(hold, st, acts[0], b);
      WithheldSince(hold, Next(hold, st, acts[0]), acts[1..], b);
    }
  }

  lemma WithheldStep(hold: nat, st: State, act: Action, b: Busid)
    requires Enabled(st, act)
    ensures b in Next(hold, st, act).suspended <==>
            Withholds(st, act, b) || (b in st.suspended && !PutsBack(st, act, b))
  {
  }

  /** In every run a device is withheld if and only if a chord withheld it and nothing has put it back since. */
  lemma WithheldExactly(hold: nat, acts: seq<Action>, b: Busid)
    requires Runs(hold, START, acts)
    ensures b in After(hold, START, acts).suspended <==> LastWithheld(hold, START, acts, b, false)
  {
    WithheldSince(hold, START, acts, b);
  }

  // -------------------------------------------------- without a hangup: never

  predicate NoHangup(acts: seq<Action>) {
    forall i :: 0 <= i < |acts| ==> !acts[i].Hangup?
  }

  lemma {:induction false} NeverStale(hold: nat, st: State, acts: seq<Action>)
    requires Inv(st) && st.stale == {} && !st.watching.HungUp? && Runs(hold, st, acts) && NoHangup(acts)
    ensures After(hold, st, acts).stale == {}
    decreases |acts|
  {
    if acts != [] {
      assert !acts[0].Hangup?;
      StaleOnlyAfterHangup(hold, st, acts[0]);
      StepKeeps(hold, st, acts[0]);
      NeverStale(hold, Next(hold, st, acts[0]), acts[1..]);
    }
  }

  lemma StaleOnlyAfterHangup(hold: nat, st: State, act: Action)
    requires Inv(st) && st.stale == {} && !st.watching.HungUp? && Enabled(st, act) && !act.Hangup?
    ensures var st' := Next(hold, st, act); st'.stale == {} && !st'.watching.HungUp?
  {
    if act.SuspendStep? {
      var b := st.sessions[act.id].b;
      assert SessionOk(st, act.id) && WatchedOk(st, b);
    }
  }

  /** In a run without SIGHUP every chord-caused toggle follows a release seen since the one before. */
  lemma NoOscillationWithoutHangup(hold: nat, acts: seq<Action>, act: Action, b: Busid, track: Track)
    requires Runs(hold, START, acts) && NoHangup(acts) && Toggles(After(hold, START, acts), act, b, track)
    ensures track.released > LastToggle(After(hold, START, acts), b)
  {
    StartHolds();
    NeverStale(hold, START, acts);
    NoOscillation(hold, acts, act, b, track);
  }

  // ------------------------------------------------- with one: exactly when

  ghost predicate Leads(hold: nat, st: State, st': State) {
    exists acts :: Runs(hold, st, acts) && After(hold, st, acts) == st'
  }

  lemma {:induction false} OneMore(hold: nat, st: State, acts: seq<Action>, act: Action)
    requires Runs(hold, st, acts) && Enabled(After(hold, st, acts), act)
    ensures Runs(hold, st, acts + [act])
    ensures After(hold, st, acts + [act]) == Next(hold, After(hold, st, acts), act)
    decreases |acts|
  {
    if acts == [] {
      assert (acts + [act])[1..] == [];
    } else {
      OneMore(hold, Next(hold, st, acts[0]), acts[1..], act);
      assert (acts + [act])[1..] == acts[1..] + [act];
    }
  }

  lemma LeadsNowhere(hold: nat, st: State)
    ensures Leads(hold, st, st)
  {
    assert Runs(hold, st, []) && After(hold, st, []) == st;
  }

  lemma LeadsOn(hold: nat, st: State, st1: State, act: Action)
    requires Leads(hold, st, st1) && Enabled(st1, act)
    ensures Leads(hold, st, Next(hold, st1, act))
  {
    var acts :| Runs(hold, st, acts) && After(hold, st, acts) == st1;
    OneMore(hold, st, acts, act);
  }

  /** `st'` is about to undo the toggle that was `b`'s last in `st`, and no release was seen since. */
  predicate Undoes(st: State, st': State, b: Busid) {
    && st'.watching.Resuming? && st'.watching.b == b && b in st'.watched
    && LastToggle(st', b) == LastToggle(st, b) && st'.watched[b].track.released <= LastToggle(st, b)
  }

  /** The chord that suspended `b` can put it back on offer without having been released. */
  ghost predicate CanBounce(hold: nat, st: State, b: Busid) {
    exists st' :: Leads(hold, st, st') && Undoes(st, st', b)
  }

  lemma LastToggleStep(hold: nat, st: State, act: Action, b: Busid)
    requires Enabled(st, act) && LastToggle(st, b) < st.steps
    ensures var st' := Next(hold, st, act);
            && LastToggle(st', b) >= LastToggle(st, b)
            && (b !in st.stale && b in st'.stale ==> LastToggle(st', b) > LastToggle(st, b))
  {
  }

  /** A device does not turn stale between one toggle and the next. */
  lemma {:induction false} NotStaleUntilToggled(hold: nat, st: State, acts: seq<Action>, b: Busid)
    requires Inv(st) && Runs(hold, st, acts)
    ensures var st' := After(hold, st, acts);
            && LastToggle(st', b) >= LastToggle(st, b)
            && (b !in st.stale && LastToggle(st', b) == LastToggle(st, b) ==> b !in st'.stale)
    decreases |acts|
  {
    if acts != [] {
      assert WatchedOk(st, b);
      LastToggleStep(hold, st, acts[0], b);
      StepKeeps(hold, st, acts[0]);
      NotStaleUntilToggled(hold, Next(hold, st, acts[0]), acts[1..], b);
    }
  }

  lemma {:induction false} Enumerate(s: set<Busid>) returns (order: seq<Busid>)
    ensures Enumerates(order, s)
    decreases |s|
  {
    if s == {} {
      order := [];
    } else {
      var b :| b in s;
      var rest := Enumerate(s - {b});
      order := [b] + rest;
    }
  }

  /** Visits that read nothing, one per device left in the pass. */
  lemma {:induction false} SkipRest(hold: nat, st0: State, st: State, b: Busid) returns (st': State)
    requires Leads(hold, st0, st) && st.watching.Visiting? && b !in st.watching.todo && b in st.watched
    ensures Leads(hold, st0, st') && st'.watching == Visiting([]) && b in st'.watched
    ensures st'.watched[b] == st.watched[b] && st'.suspended == st.suspended && st'.toggled == st.toggled
    decreases |st.watching.todo|
  {
    if st.watching.todo == [] {
      st' := st;
    } else {
      var act := Visit(false, Lost, 0);
      LeadsOn(hold, st0, st, act);
      st' := SkipRest(hold, st0, Next(hold, st, act), b);
    }
  }

  /** From the top of a pass: list, and visit `b` first with the chord held at `now`. */
  lemma VisitHeld(hold: nat, st0: State, st: State, b: Busid, now: nat) returns (st': State)
    requires Leads(hold, st0, st) && (st.watching.Top? || st.watching.HungUp?)
    requires b in st.suspended && b in st.watched && st.watched[b].tapped
    ensures Leads(hold, st0, st') && st'.toggled == st.toggled && st'.suspended == st.suspended
    ensures b in st'.watched && st'.watched[b].tapped
    ensures exists step ::
              var (track, fired) := FeedTrack(st.watched[b].track, hold, Held, now, step);
              && st'.watched[b].track == track
              && (if fired then st'.watching.Resuming? && st'.watching.b == b
                  else st'.watching.Visiting? && b !in st'.watching.todo)
  {
    var rest := Enumerate(st.suspended - {b});
    var order := [b] + rest;
    LeadsOn(hold, st0, st, ListStep(order));
    var st1 := Next(hold, st, ListStep(order));
    assert st1.watching.todo[1..] == rest;
    var act := Visit(false, Reports([Held]), now);
    LeadsOn(hold, st0, st1, act);
    st' := Next(hold, st1, act);
    HeldAlone(st1.watched[b].track, hold, now, st1.steps);
  }

  lemma HeldAlone(t: Track, hold: nat, now: nat, step: nat)
    ensures FeedBatch(t, hold, [Held], now, step) == FeedTrack(t, hold, Held, now, step)
  {
    var t1 := FeedTrack(t, hold, Held, now, step).0;
    assert FeedBatch(t1, hold, [], now, step) == (t1, false);
  }

  /** An armed detector left over from before the suspension fires on a chord that never let go. */
  lemma PrimedBounces(hold: nat, st: State, b: Busid)
    requires (st.watching.Top? || st.watching.HungUp?) && b in st.suspended && Primed(st, b)
    requires st.watched[b].track.released <= LastToggle(st, b)
    ensures CanBounce(hold, st, b)
  {
    LeadsNowhere(hold, st);
    var since := st.watched[b].track.state.since;
    var st1 := VisitHeld(hold, st, st, b, if since.Some? then since.value + hold else 0);
    if st1.watching.Resuming? {
      assert Undoes(st, st1, b);
    } else {
      var st2 := SkipRest(hold, st, st1, b);
      LeadsOn(hold, st, st2, PassOver);
      var st3 := VisitHeld(hold, st, Next(hold, st2, PassOver), b, hold);
      assert Undoes(st, st3, b);
    }
  }

  /**
    * A chord can undo its own suspension exactly when, as the session suspends the device,
    * the watcher still keeps a tap on it with an armed detector.
    */
  lemma BouncesExactly(hold: nat, st: State, id: nat)
    requires Inv(st) && Enabled(st, SuspendStep(id))
    ensures var b := st.sessions[id].b;
            CanBounce(hold, Next(hold, st, SuspendStep(id)), b) <==> Primed(st, b)
  {
    var b := st.sessions[id].b;
    var st' := Next(hold, st, SuspendStep(id));
    assert SessionOk(st, id) && WatchedOk(st, b);
    StepKeeps(hold, st, SuspendStep(id));
    if Primed(st, b) {
      PrimedBounces(hold, st', b);
    } else {
      forall st'' | Leads(hold, st', st'')
        ensures !Undoes(st', st'', b)
      {
        var acts :| Runs(hold, st', acts) && After(hold, st', acts) == st'';
        RunKeeps(hold, st', acts);
        NotStaleUntilToggled(hold, st', acts, b);
      }
    }
  }

  lemma GetsLease(hold: nat, st0: State, st: State, id: nat, b: Busid) returns (st': State)
    requires Leads(hold, st0, st) && id !in st.sessions && b !in st.suspended && b !in st.busy
    ensures Leads(hold, st0, st')
    ensures st' == Put(st, id, Leased(b)).(busy := st.busy + {b}, steps := st.steps + 2)
  {
    LeadsOn(hold, st0, st, Connect(id, b));
    var st1 := Next(hold, st, Connect(id, b));
    LeadsOn(hold, st0, st1, Acquire(id));
    st' := Next(hold, st1, Acquire(id));
    assert st'.sessions == st.sessions[id := Leased(b)];
  }

  lemma GetsOpened(hold: nat, st0: State, st: State, id: nat) returns (st': State)
    requires Leads(hold, st0, st) && id in st.sessions && st.sessions[id].Leased?
    requires st.sessions[id].b !in st.suspended
    ensures Leads(hold, st0, st')
    ensures st' == Put(st, id, Running(st.sessions[id].b, FRESH_TRACK, false)).(steps := st.steps + 2)
  {
    LeadsOn(hold, st0, st, Open(id, true));
    var st1 := Next(hold, st, Open(id, true));
    LeadsOn(hold, st0, st1, Begin(id, true));
    st' := Next(hold, st1, Begin(id, true));
    assert st'.sessions == st.sessions[id := Running(st.sessions[id].b, FRESH_TRACK, false)];
  }

  /** One connection, from the list check to a running session that has seen a release. */
  lemma Imports(hold: nat, st0: State, st: State, id: nat, b: Busid) returns (st': State)
    requires Leads(hold, st0, st) && id !in st.sessions && b !in st.suspended && b !in st.busy
    ensures Leads(hold, st0, st')
    ensures st' == Put(st, id, Running(b, Track(Hold(None, true), st.steps + 4), false))
                   .(busy := st.busy + {b}, steps := st.steps + 5)
  {
    var st2 := GetsLease(hold, st0, st, id, b);
    var st4 := GetsOpened(hold, st0, st2, id);
    LeadsOn(hold, st0, st4, FeedSession(id, Released, 0));
    st' := Next(hold, st4, FeedSession(id, Released, 0));
    assert st'.sessions == st.sessions[id := Running(b, Track(Hold(None, true), st.steps + 4), false)];
  }

  /** The chord goes down and is held for as long as it takes. */
  lemma HoldsChord(hold: nat, st0: State, st: State, id: nat) returns (st': State)
    requires Leads(hold, st0, st) && id in st.sessions && st.sessions[id].Running?
    requires st.sessions[id].track.state == Hold(None, true)
    ensures Leads(hold, st0, st') && Enabled(st', SuspendStep(id))
    ensures st' == st.(sessions := st'.sessions, steps := st'.steps)
    ensures st'.sessions == st.sessions[id := st'.sessions[id]] && st'.sessions[id].b == st.sessions[id].b
  {
    LeadsOn(hold, st0, st, FeedSession(id, Held, 0));
    var st1 := Next(hold, st, FeedSession(id, Held, 0));
    LeadsOn(hold, st0, st1, FeedSession(id, Held, hold));
    st' := Next(hold, st1, FeedSession(id, Held, hold));
  }

  /** The first session has been suspended and is gone, and the watcher's detector has seen a release. */
  lemma SuspendedAndWatched(hold: nat, b: Busid) returns (st: State)
    ensures Leads(hold, START, st) && st.watching == HungUp && Primed(st, b)
    ensures st.suspended == {} && st.busy == {} && st.sessions == map[]
  {
    LeadsNowhere(hold, START);
    var st1 := Imports(hold, START, START, 0, b);
    var st2 := HoldsChord(hold, START, st1, 0);
    LeadsOn(hold, START, st2, SuspendStep(0));
    var st3 := Next(hold, st2, SuspendStep(0));
    LeadsOn(hold, START, st3, Disconnect(0));
    var st4 := Next(hold, st3, Disconnect(0));
    assert st4.sessions == map[] && st4.suspended == {b} && st4.busy == {};
    st := WatchesThenHangup(hold, st4, b);
  }

  lemma WatchesThenHangup(hold: nat, st: State, b: Busid) returns (st': State)
    requires Leads(hold, START, st) && st.watching.Top? && st.suspended == {b} && b !in st.watched
    ensures Leads(hold, START, st') && st'.watching == HungUp && Primed(st', b) && st'.suspended == {}
    ensures st'.busy == st.busy && st'.sessions == st.sessions
  {
    LeadsOn(hold, START, st, ListStep([b]));
    var st1 := Next(hold, st, ListStep([b]));
    var look := Visit(true, Reports([Released]), 0);
    LeadsOn(hold, START, st1, look);
    var st2 := Next(hold, st1, look);
    assert FeedBatch(FRESH_TRACK, hold, [Released], 0, st1.steps).0.state.armed;
    LeadsOn(hold, START, st2, PassOver);
    var st3 := Next(hold, st2, PassOver);
    LeadsOn(hold, START, st3, Hangup);
    st' := Next(hold, st3, Hangup);
  }

  /** The condition is met in a reachable state: a SIGHUP, a new session, and the chord again at once. */
  lemma HangupRace(hold: nat, b: Busid) returns (st: State)
    ensures Leads(hold, START, st) && Inv(st) && Enabled(st, SuspendStep(1)) && st.sessions[1].b == b
    ensures CanBounce(hold, Next(hold, st, SuspendStep(1)), b)
  {
    var st1 := SuspendedAndWatched(hold, b);
    var st2 := Imports(hold, START, st1, 1, b);
    st := HoldsChord(hold, START, st2, 1);
    var acts :| Runs(hold, START, acts) && After(hold, START, acts) == st;
    ReachedHolds(hold, acts);
    BouncesExactly(hold, st, 1);
  }
}
