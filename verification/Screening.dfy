/** Showing completions to the chord detector (crates/usbfwd-server/src/session.rs, `screen`). */
module Screening {
  import opened Usbfs
  import opened Pump
  import opened Chord

  /** A completion as the reaper holds it, blanked where it stands. */
  class UrbCompletion {
    var done: Completion

    constructor (done: Completion)
      ensures this.done == done
    {
      this.done := done;
    }
  }

  /** `screen`: only good, non-empty completions are shown to the detector. */
  method ScreenCompletion(d: Detector, c: UrbCompletion, now: nat) returns (fired: bool)
    modifies d, c
    ensures var shown := old(c.done).status == 0 && old(c.done).data != [];
            var r := Feed(old(d.View()), d.hold, Seen(Observe(d.chord, old(c.done).data), now));
            && d.View() == (if shown then r.0 else old(d.View()))
            && fired == (shown && r.1.fired)
            && c.done == Screen(old(c.done), shown && r.1.swallow)
  {
    if c.done.status != 0 || c.done.data == [] {
      return false;
    }
    var v := d.FeedReport(c.done.data, now);
    if v.swallow {
      c.done := c.done.(data := []);
      c.done := c.done.(actualLength := 0);
    }
    return v.fired;
  }
}
