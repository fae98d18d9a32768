/**
  * The two sets importers and the watcher share (crates/usbfwd-server/src/registry.rs and
  * toggle.rs), and the watcher's view of one withheld device.
  */
module Toggle {
  import opened Types
  import opened Chord

  type Busid = string

  // What each call does to its set, and what it answers.

  function DoAcquire(busy: set<Busid>, b: Busid): (set<Busid>, bool) {
    (busy + {b}, b !in busy)
  }

  function DoRelease(busy: set<Busid>, b: Busid): set<Busid> {
    busy - {b}
  }

  function DoSuspend(suspended: set<Busid>, b: Busid): (set<Busid>, bool) {
    (suspended + {b}, b !in suspended)
  }

  function DoResume(suspended: set<Busid>, b: Busid): (set<Busid>, bool) {
    (suspended - {b}, b in suspended)
  }

  function DoResumeAll(suspended: set<Busid>): (set<Busid>, set<Busid>) {
    ({}, suspended)
  }

  /** Which devices are exported. A lease is the right to remove one's own entry again. */
  class Registry {
    var busy: set<Busid>

    constructor ()
      ensures busy == {}
    {
      busy := {};
    }

    method Acquire(busid: Busid) returns (leased: bool)
      modifies this
      ensures (busy, leased) == DoAcquire(old(busy), busid)
      ensures leased <==> busid !in old(busy)
      ensures busid in busy && forall b :: b != busid ==> (b in busy <==> b in old(busy))
    {
      leased := busid !in busy;
      busy := busy + {busid};
    }

    /** `Lease::drop`. */
    method Release(busid: Busid)
      modifies this
      ensures busy == DoRelease(old(busy), busid)
      ensures busid !in busy && forall b :: b != busid ==> (b in busy <==> b in old(busy))
    {
      busy := busy - {busid};
    }
  }

  /** Which devices are withheld from importers. */
  class Toggle {
    var suspended: set<Busid>

    constructor ()
      ensures suspended == {}
    {
      suspended := {};
    }

    method Suspend(busid: Busid) returns (changed: bool)
      modifies this
      ensures (suspended, changed) == DoSuspend(old(suspended), busid)
      ensures busid in suspended && (changed <==> busid !in old(suspended))
      ensures forall b :: b != busid ==> (b in suspended <==> b in old(suspended))
    {
      changed := busid !in suspended;
      suspended := suspended + {busid};
    }

    method Resume(busid: Busid) returns (changed: bool)
      modifies this
      ensures (suspended, changed) == DoResume(old(suspended), busid)
      ensures busid !in suspended && (changed <==> busid in old(suspended))
      ensures forall b :: b != busid ==> (b in suspended <==> b in old(suspended))
    {
      changed := busid in suspended;
      suspended := suspended - {busid};
    }

    method ResumeAll() returns (was: set<Busid>)
      modifies this
      ensures (suspended, was) == DoResumeAll(old(suspended))
    {
      was := suspended;
      suspended := {};
    }

    /** `Gated::list`: what is on offer, in the order the inner source gave it. */
    method OnOffer(inner: seq<Busid>) returns (r: seq<Busid>)
      ensures r == Offered(inner, suspended)
    {
      r := [];
      for i := 0 to |inner|
        invariant r == Offered(inner[..i], suspended)
      {
        assert inner[..i + 1][..i] == inner[..i];
        if inner[i] !in suspended {
          r := r + [inner[i]];
        }
      }
      assert inner[..|inner|] == inner;
    }
  }

  function Offered(inner: seq<Busid>, suspended: set<Busid>): seq<Busid> {
    if inner == [] then []
    else
      var last := inner[|inner| - 1];
      Offered(inner[..|inner| - 1], suspended) + (if last in suspended then [] else [last])
  }

  /** `import`'s list check admits a bus id exactly when it exists and is not withheld. */
  lemma {:induction false} OfferedExactly(inner: seq<Busid>, suspended: set<Busid>, b: Busid)
    ensures b in Offered(inner, suspended) <==> b in inner && b !in suspended
  {
    if inner != [] {
      OfferedExactly(inner[..|inner| - 1], suspended, b);
      assert inner == inner[..|inner| - 1] + [inner[|inner| - 1]];
    }
  }

  // -------------------------------------------------------------- the watcher

  /**
    * A detector together with when it last saw the chord released: `released` is the number
    * of the step that showed it, or -1.
    */
  datatype Track = Track(state: Hold, released: int)

  const FRESH_TRACK := Track(DISARMED, -1)

  function FeedTrack(t: Track, hold: nat, obs: Obs, now: nat, step: nat): (Track, bool) {
    var (state, v) := Feed(t.state, hold, Seen(obs, now));
    (Track(state, if obs.Released? then step else t.released), v.fired)
  }

  /** One read of the tap: the reports share an instant, and a firing cuts the rest off. */
  function FeedBatch(t: Track, hold: nat, batch: seq<Obs>, now: nat, step: nat): (Track, bool)
    decreases |batch|
  {
    if batch == [] then (t, false)
    else
      var (t1, fired) := FeedTrack(t, hold, batch[0], now, step);
      if fired then (t1, true) else FeedBatch(t1, hold, batch[1..], now, step)
  }

  datatype ReadResult = Lost | Reports(batch: seq<Obs>)

  datatype Step = Fired | Polled | Idle

  datatype Watched = Watched(tapped: bool, track: Track)

  const FRESH_WATCHED := Watched(false, FRESH_TRACK)

  /** `attach_tap` puts a fresh detector beside a new tap. */
  function Attached(w: Watched, nodes: bool): Watched {
    if w.tapped || !nodes then w else Watched(true, FRESH_TRACK)
  }

  /** `Watched::step`. `nodes` says whether a tap could be opened now, should there be none. */
  function StepWatched(w: Watched, hold: nat, nodes: bool, read: ReadResult, now: nat, step: nat): (Watched, Step) {
    var w1 := Attached(w, nodes);
    if !w1.tapped then (w1, Idle)
    else
      match read
      case Lost => (w1.(tapped := false), Idle)
      case Reports(batch) =>
        var (t, fired) := FeedBatch(w1.track, hold, batch, now, step);
        (w1.(track := t), if fired then Fired else Polled)
  }

  /** The watcher's record of one device, as the code keeps it: reports, not observations. */
  class WatchedDevice {
    const chord: Mask
    const hold: nat
    var tapped: bool
    var detector: Detector
    ghost var released: int

    ghost predicate Valid()
      reads this, detector
    {
      detector.chord == chord && detector.hold == hold
    }

    ghost function View(): Watched
      reads this, detector
    {
      Watched(tapped, Track(detector.View(), released))
    }

    constructor (chord: Mask, hold: nat)
      ensures Valid() && View() == FRESH_WATCHED && fresh(detector)
      ensures this.chord == chord && this.hold == hold
    {
      this.chord, this.hold := chord, hold;
      tapped := false;
      detector := new Detector(chord, hold);
      released := -1;
    }

    /** `reports` is what the tap read, or nothing if it was lost. */
    method StepDevice(nodes: bool, reports: Option<seq<Bytes>>, now: nat, ghost step: nat) returns (r: Step)
      requires Valid()
      modifies this, detector
      ensures Valid() && (detector == old(detector) || fresh(detector))
      ensures var read := if reports.None? then Lost else Reports(Observations(chord, reports.value));
              var after := StepWatched(old(View()), hold, nodes, read, now, step);
              View() == after.0 && r == after.1
    {
      if !tapped && nodes {
        detector := new Detector(chord, hold);
        released := -1;
        tapped := true;
      }
      if !tapped {
        return Idle;
      }
      if reports.None? {
        tapped := false;
        return Idle;
      }
      var fired := FeedReports(reports.value, now, step);
      return if fired then Fired else Polled;
    }

    method FeedReports(reports: seq<Bytes>, now: nat, ghost step: nat) returns (fired: bool)
      requires Valid()
      modifies detector, this`released
      ensures Valid()
      ensures var after := FeedBatch(old(View()).track, hold, Observations(chord, reports), now, step);
              View().track == after.0 && fired == after.1
    {
      ghost var all := Observations(chord, reports);
      for i := 0 to |reports|
        invariant Valid()
        invariant FeedBatch(old(View()).track, hold, all, now, step)
                  == FeedBatch(View().track, hold, all[i..], now, step)
      {
        assert all[i..][1..] == all[i + 1..];
        var v := detector.FeedReport(reports[i], now);
        released := if all[i].Released? then step else released;
        if v.fired {
          return true;
        }
      }
      return false;
    }
  }

  function Observations(chord: Mask, reports: seq<Bytes>): (r: seq<Obs>)
    ensures |r| == |reports| && forall i :: 0 <= i < |r| ==> r[i] == Observe(chord, reports[i])
  {
    seq(|reports|, i requires 0 <= i < |reports| => Observe(chord, reports[i]))
  }
}
