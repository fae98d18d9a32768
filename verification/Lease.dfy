/**
  * Who may run a session on which device (crates/usbfwd-server/src/lib.rs, `import`;
  * session.rs, the end of `reaper_loop`; toggle.rs, `watch`), as a state machine. Every call
  * on the lease set or the suspended set is one step; import threads, session reapers and
  * the watcher interleave freely, and the operating system answers as it likes.
  */
module Lease {
  import opened Chord
  import opened Toggle

  /** How far one connection has got. `fired` is the reaper's note to suspend once it has drained. */
  datatype Session =
    | Listed(b: Busid)                              // found on offer
    | Leased(b: Busid)
    | Opened(b: Busid)
    | Running(b: Busid, track: Track, fired: bool)  // the reaper feeds its detector
    | Ending(b: Busid, own: bool)                   // the reaper is done; `own`: it suspended the device

  datatype Watching =
    | Top
    | HungUp                                        // SIGHUP taken, list not read yet
    | Visiting(todo: seq<Busid>)
    | Resuming(b: Busid, todo: seq<Busid>)          // the chord fired

  /**
    * `steps`, `toggled` (the last chord-caused toggle of each device) and `stale` (devices
    * suspended while the watcher still had an armed detector for them) are history.
    */
  datatype State = State(
    busy: set<Busid>, suspended: set<Busid>, sessions: map<nat, Session>,
    watched: map<Busid, Watched>, watching: Watching,
    steps: nat, toggled: map<Busid, nat>, stale: set<Busid>)

  const START := State({}, {}, map[], map[], Top, 0, map[], {})

  datatype Action =
    | Connect(id: nat, b: Busid)
    | Acquire(id: nat)
    | Open(id: nat, ok: bool)
    | Begin(id: nat, ok: bool)
    | FeedSession(id: nat, obs: Obs, now: nat)
    | SuspendStep(id: nat)
    | ReaperStops(id: nat)
    | Disconnect(id: nat)
    | Hangup
    | ListStep(order: seq<Busid>)
    | Visit(nodes: bool, read: ReadResult, now: nat)
    | ResumeStep
    | PassOver

  predicate Holds(x: Session) {
    !x.Listed?
  }

  predicate PastOpen(x: Session) {
    x.Opened? || x.Running? || x.Ending?
  }

  predicate Enumerates(order: seq<Busid>, s: set<Busid>) {
    && (forall b :: b in s ==> b in order) && (forall b :: b in order ==> b in s)
    && (forall i, j :: 0 <= i < j < |order| ==> order[i] != order[j])
  }

  function LastToggle(st: State, b: Busid): int {
    if b in st.toggled then st.toggled[b] else -1
  }

  predicate Enabled(st: State, act: Action) {
    match act
    case Connect(id, b) => id !in st.sessions && b !in st.suspended
    case Acquire(id) => id in st.sessions && st.sessions[id].Listed?
    case Open(id, _) => id in st.sessions && st.sessions[id].Leased?
    case Begin(id, _) => id in st.sessions && st.sessions[id].Opened?
    case FeedSession(id, _, _) => id in st.sessions && st.sessions[id].Running?
    case SuspendStep(id) => id in st.sessions && st.sessions[id].Running? && st.sessions[id].fired
    case ReaperStops(id) => id in st.sessions && st.sessions[id].Running? && !st.sessions[id].fired
    case Disconnect(id) => id in st.sessions && st.sessions[id].Ending?
    case Hangup => st.watching.Top?
    case ListStep(order) => (st.watching.Top? || st.watching.HungUp?) && Enumerates(order, st.suspended)
    case Visit(_, _, _) => st.watching.Visiting? && st.watching.todo != []
    case ResumeStep => st.watching.Resuming?
    case PassOver => st.watching == Visiting([])
  }

  /** The import ends early or in the ordinary way; a lease it holds is dropped. */
  function Drop(st: State, id: nat): State
    requires id in st.sessions
  {
    var x := st.sessions[id];
    st.(sessions := st.sessions - {id}, busy := if Holds(x) then DoRelease(st.busy, x.b) else st.busy)
  }

  function Put(st: State, id: nat, x: Session): State {
    st.(sessions := st.sessions[id := x])
  }

  /** An armed detector that is still attached to a tap. */
  predicate Primed(st: State, b: Busid) {
    b in st.watched && st.watched[b].tapped && st.watched[b].track.state.armed
  }

  function AfterSuspend(st: State, id: nat): State
    requires id in st.sessions
  {
    var b := st.sessions[id].b;
    Put(st, id, Ending(b, true)).(suspended := DoSuspend(st.suspended, b).0, toggled := st.toggled[b := st.steps],
                                  stale := if Primed(st, b) then st.stale + {b} else st.stale)
  }

  function AfterVisit(hold: nat, st: State, nodes: bool, read: ReadResult, now: nat): State
    requires st.watching.Visiting? && st.watching.todo != []
  {
    var b, rest := st.watching.todo[0], st.watching.todo[1..];
    var w := if b in st.watched then st.watched[b] else FRESH_WATCHED;
    var (w', step) := StepWatched(w, hold, nodes, read, now, st.steps);
    st.(watched := st.watched[b := w'],
        watching := if step.Fired? then Resuming(b, rest) else Visiting(rest),
        stale := if w.tapped && w'.tapped then st.stale else st.stale - {b})
  }

  function Act(hold: nat, st: State, act: Action): State
    requires Enabled(st, act)
  {
    match act
    case Connect(id, b) => Put(st, id, Listed(b))
    case Acquire(id) =>
      var b := st.sessions[id].b;
      var (busy, leased) := DoAcquire(st.busy, b);
      if leased then Put(st, id, Leased(b)).(busy := busy) else Drop(st, id)
    case Open(id, ok) =>
      var b := st.sessions[id].b;
      if b in st.suspended || !ok then Drop(st, id) else Put(st, id, Opened(b))
    case Begin(id, ok) =>
      if ok then Put(st, id, Running(st.sessions[id].b, FRESH_TRACK, false)) else Drop(st, id)
    case FeedSession(id, obs, now) =>
      var x := st.sessions[id];
      var (track, fired) := FeedTrack(x.track, hold, obs, now, st.steps);
      Put(st, id, Running(x.b, track, x.fired || fired))
    case SuspendStep(id) => AfterSuspend(st, id)
    case ReaperStops(id) => Put(st, id, Ending(st.sessions[id].b, false))
    case Disconnect(id) => Drop(st, id)
    case Hangup => st.(suspended := DoResumeAll(st.suspended).0, watching := HungUp, stale := {})
    case ListStep(order) =>
      st.(watching := Visiting(order), watched := map b | b in st.watched && b in st.suspended :: st.watched[b])
    case Visit(nodes, read, now) => AfterVisit(hold, st, nodes, read, now)
    case ResumeStep =>
      var b := st.watching.b;
      st.(suspended := DoResume(st.suspended, b).0, watching := Visiting(st.watching.todo),
          toggled := st.toggled[b := st.steps], stale := st.stale - {b})
    case PassOver => st.(watching := Top)
  }

  function Next(hold: nat, st: State, act: Action): State
    requires Enabled(st, act)
  {
    Act(hold, st, act).(steps := st.steps + 1)
  }

  predicate Runs(hold: nat, st: State, acts: seq<Action>)
    decreases |acts|
  {
    acts == [] || (Enabled(st, acts[0]) && Runs(hold, Next(hold, st, acts[0]), acts[1..]))
  }

  function After(hold: nat, st: State, acts: seq<Action>): State
    requires Runs(hold, st, acts)
    decreases |acts|
  {
    if acts == [] then st else After(hold, Next(hold, st, acts[0]), acts[1..])
  }

  // ---------------------------------------------------------------- invariant

  /** One connection: what it holds, and that only its own reaper can have suspended its device. */
  ghost predicate SessionOk(st: State, id: nat) {
    id in st.sessions ==>
      var x := st.sessions[id];
      && (Holds(x) ==> x.b in st.busy)
      && (x.Opened? || x.Running? ==> x.b !in st.suspended)
      && (x.Ending? && x.b in st.suspended ==> x.own)
      && (x.Running? ==> x.track.released < st.steps)
      && (x.Running? && (x.fired || x.track.state.armed) ==> x.track.released > LastToggle(st, x.b))
  }

  ghost predicate Exclusive(st: State, i: nat, j: nat) {
    i in st.sessions && j in st.sessions && i != j && Holds(st.sessions[i]) && Holds(st.sessions[j]) ==>
      st.sessions[i].b != st.sessions[j].b
  }

  ghost predicate HeldBySomeone(st: State, b: Busid) {
    exists i :: i in st.sessions && Holds(st.sessions[i]) && st.sessions[i].b == b
  }

  /** One device the watcher knows: armed, it has seen a release since the last toggle. */
  ghost predicate WatchedOk(st: State, b: Busid) {
    && LastToggle(st, b) < st.steps
    && (b in st.stale ==> b in st.suspended)
    && (b in st.watched ==> st.watched[b].track.released < st.steps)
    && (Primed(st, b) && b in st.suspended && b !in st.stale ==> st.watched[b].track.released > LastToggle(st, b))
    && (Primed(st, b) && b !in st.suspended ==> st.watching.HungUp?)
  }

  ghost predicate WatchingOk(st: State) {
    match st.watching
    case Top => true
    case HungUp => true
    case Visiting(todo) => TodoOk(st, todo)
    case Resuming(b, todo) =>
      && TodoOk(st, todo) && b !in todo && b in st.suspended && b in st.watched && !st.watched[b].track.state.armed
      && (b !in st.stale ==> st.watched[b].track.released > LastToggle(st, b))
  }

  ghost predicate TodoOk(st: State, todo: seq<Busid>) {
    && (forall b :: b in todo ==> b in st.suspended)
    && (forall i, j :: 0 <= i < j < |todo| ==> todo[i] != todo[j])
  }

  ghost predicate Inv(st: State) {
    && (forall id :: SessionOk(st, id))
    && (forall i, j :: Exclusive(st, i, j))
    && (forall b :: b in st.busy ==> HeldBySomeone(st, b))
    && (forall b :: WatchedOk(st, b))
    && WatchingOk(st)
  }

  // -------------------------------------------------------------- every step

  /** A detector that becomes armed, or fires, has seen a release after `t`. */
  lemma FeedKeepsRelease(tr: Track, hold: nat, obs: Obs, now: nat, step: nat, t: int)
    requires tr.released < step && t < step && (tr.state.armed ==> tr.released > t)
    ensures var (tr', fired) := FeedTrack(tr, hold, obs, now, step);
            && (tr'.state.armed || fired ==> tr'.released > t) && tr'.released <= step
            && (fired ==> !tr'.state.armed) && tr'.released >= tr.released
  {
  }

  lemma {:induction false} BatchKeepsRelease(tr: Track, hold: nat, batch: seq<Obs>, now: nat, step: nat, t: int)
    requires tr.released <= step && t < step && (tr.state.armed ==> tr.released > t)
    ensures var (tr', fired) := FeedBatch(tr, hold, batch, now, step);
            && (tr'.state.armed || fired ==> tr'.released > t) && tr'.released <= step
            && (fired ==> !tr'.state.armed)
    decreases |batch|
  {
    if batch != [] {
      var (t1, fired) := FeedTrack(tr, hold, batch[0], now, step);
      if !fired {
        BatchKeepsRelease(t1, hold, batch[1..], now, step, t);
      }
    }
  }

  /** Steps of one connection that leave the suspended set alone. */
  ghost predicate Local(act: Action) {
    act.Connect? || act.Begin? || act.FeedSession? || act.ReaperStops? || act.Acquire? || act.Open? || act.Disconnect?
  }

  lemma LocalSession(hold: nat, st: State, act: Action, id: nat)
    requires Enabled(st, act) && Local(act) && SessionOk(st, id) && SessionOk(st, act.id)
    requires Exclusive(st, id, act.id)
    requires forall b :: WatchedOk(st, b)
    ensures SessionOk(Next(hold, st, act), id)
  {
    if id in st.sessions {
      assert WatchedOk(st, st.sessions[id].b);
    }
    if act.FeedSession? {
      var x := st.sessions[act.id];
      assert WatchedOk(st, x.b);
      FeedKeepsRelease(x.track, hold, act.obs, act.now, st.steps, LastToggle(st, x.b));
    }
  }

  lemma LocalBusy(hold: nat, st: State, act: Action, b: Busid)
    requires Enabled(st, act) && Local(act)
    requires b in st.busy ==> HeldBySomeone(st, b)
    requires forall i, j :: Exclusive(st, i, j)
    requires forall id :: SessionOk(st, id)
    ensures var st' := Next(hold, st, act); b in st'.busy ==> HeldBySomeone(st', b)
  {
    var st' := Next(hold, st, act);
    if b in st'.busy {
      if b in st.busy {
        var i :| i in st.sessions && Holds(st.sessions[i]) && st.sessions[i].b == b;
        assert Exclusive(st, i, act.id) && SessionOk(st, act.id);
        assert i in st'.sessions && Holds(st'.sessions[i]) && st'.sessions[i].b == b;
      } else {
        assert act.id in st'.sessions && Holds(st'.sessions[act.id]) && st'.sessions[act.id].b == b;
      }
    }
  }

  lemma LocalExclusive(hold: nat, st: State, act: Action, i: nat, j: nat)
    requires Enabled(st, act) && Local(act) && Exclusive(st, i, j) && SessionOk(st, i) && SessionOk(st, j)
    ensures Exclusive(Next(hold, st, act), i, j)
  {
  }

  lemma LocalKeeps(hold: nat, st: State, act: Action)
    requires Inv(st) && Enabled(st, act) && Local(act)
    ensures Inv(Next(hold, st, act))
  {
    var st' := Next(hold, st, act);
    forall id ensures SessionOk(st', id) {
      assert SessionOk(st, id) && SessionOk(st, act.id) && Exclusive(st, id, act.id);
      LocalSession(hold, st, act, id);
    }
    forall i, j ensures Exclusive(st', i, j) {
      assert Exclusive(st, i, j) && SessionOk(st, i) && SessionOk(st, j);
      LocalExclusive(hold, st, act, i, j);
    }
    forall b | b in st'.busy ensures HeldBySomeone(st', b) { LocalBusy(hold, st, act, b); }
    forall b ensures WatchedOk(st', b) { assert WatchedOk(st, b); }
  }

  lemma SuspendKeeps(hold: nat, st: State, id: nat)
    requires Inv(st) && Enabled(st, SuspendStep(id))
    ensures Inv(Next(hold, st, SuspendStep(id)))
  {
    var st' := Next(hold, st, SuspendStep(id));
    assert SessionOk(st, id);
    forall i ensures SessionOk(st', i) {
      assert SessionOk(st, i) && Exclusive(st, i, id);
    }
    forall i, j ensures Exclusive(st', i, j) { assert Exclusive(st, i, j); }
    forall b | b in st'.busy ensures HeldBySomeone(st', b) {
      var i :| i in st.sessions && Holds(st.sessions[i]) && st.sessions[i].b == b;
      assert i in st'.sessions && Holds(st'.sessions[i]) && st'.sessions[i].b == b;
    }
    forall b ensures WatchedOk(st', b) { assert WatchedOk(st, b); }
  }

  ghost predicate WatcherStep(act: Action) {
    !Local(act) && !act.SuspendStep?
  }

  /** The watcher leaves sessions and leases alone; resuming harms no session that is past open. */
  lemma WatcherSessions(hold: nat, st: State, act: Action)
    requires Inv(st) && Enabled(st, act) && WatcherStep(act)
    ensures var st' := Next(hold, st, act);
            && (forall id :: SessionOk(st', id)) && (forall i, j :: Exclusive(st', i, j))
            && (forall b :: b in st'.busy ==> HeldBySomeone(st', b))
  {
    var st' := Next(hold, st, act);
    assert st'.sessions == st.sessions && st'.busy == st.busy && st'.suspended <= st.suspended;
    forall id ensures SessionOk(st', id) { assert SessionOk(st, id); }
    forall i, j ensures Exclusive(st', i, j) { assert Exclusive(st, i, j); }
    forall b | b in st'.busy ensures HeldBySomeone(st', b) {
      var i :| i in st.sessions && Holds(st.sessions[i]) && st.sessions[i].b == b;
      assert i in st'.sessions;
    }
  }

  lemma VisitKeeps(hold: nat, st: State, nodes: bool, read: ReadResult, now: nat)
    requires Inv(st) && Enabled(st, Visit(nodes, read, now))
    ensures var st' := Next(hold, st, Visit(nodes, read, now));
            (forall b :: WatchedOk(st', b)) && WatchingOk(st')
  {
    var st' := Next(hold, st, Visit(nodes, read, now));
    var b0 := st.watching.todo[0];
    var w := if b0 in st.watched then st.watched[b0] else FRESH_WATCHED;
    assert WatchedOk(st, b0) && b0 in st.suspended;
    VisitedDevice(hold, w, nodes, read, now, st.steps, LastToggle(st, b0), b0 in st.stale);
    forall b ensures WatchedOk(st', b) { assert WatchedOk(st, b); }
    forall b | b in st.watching.todo[1..] ensures b in st.suspended && b != b0 {
    }
  }

  /** One visit: an armed or firing detector is fresh enough, or was stale before and still is. */
  lemma VisitedDevice(hold: nat, w: Watched, nodes: bool, read: ReadResult, now: nat, step: nat, t: int, stale: bool)
    requires w.track.released < step && t < step
    requires w.tapped && w.track.state.armed && !stale ==> w.track.released > t
    ensures var (w', r) := StepWatched(w, hold, nodes, read, now, step);
            && w'.track.released <= step
            && (w'.tapped && w'.track.state.armed && !(stale && w.tapped) ==> w'.track.released > t)
            && (r.Fired? ==> w'.tapped && !w'.track.state.armed && (!(stale && w.tapped) ==> w'.track.released > t))
  {
    var w1 := Attached(w, nodes);
    if w1.tapped && read.Reports? {
      if w.tapped && stale {
        BatchKeepsRelease(w1.track, hold, read.batch, now, step, w1.track.released - 1);
      } else {
        BatchKeepsRelease(w1.track, hold, read.batch, now, step, t);
      }
    }
  }

  lemma WatcherKeeps(hold: nat, st: State, act: Action)
    requires Inv(st) && Enabled(st, act) && WatcherStep(act)
    ensures Inv(Next(hold, st, act))
  {
    var st' := Next(hold, st, act);
    WatcherSessions(hold, st, act);
    if act.Visit? {
      VisitKeeps(hold, st, act.nodes, act.read, act.now);
    } else {
      forall b ensures WatchedOk(st', b) { assert WatchedOk(st, b); }
    }
  }

  lemma StepKeeps(hold: nat, st: State, act: Action)
    requires Inv(st) && Enabled(st, act)
    ensures Inv(Next(hold, st, act))
  {
    if Local(act) {
      LocalKeeps(hold, st, act);
    } else if act.SuspendStep? {
      SuspendKeeps(hold, st, act.id);
    } else {
      WatcherKeeps(hold, st, act);
    }
  }

  lemma {:induction false} RunKeeps(hold: nat, st: State, acts: seq<Action>)
    requires Inv(st) && Runs(hold, st, acts)
    ensures Inv(After(hold, st, acts))
    decreases |acts|
  {
    if acts != [] {
      StepKeeps(hold, st, acts[0]);
      RunKeeps(hold, Next(hold, st, acts[0]), acts[1..]);
    }
  }
}
