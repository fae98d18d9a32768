/**
  * Recognising a held button chord in input reports (crates/usbfwd-server/src/chord.rs).
  * A 64-bit button word is the set of its one bits. Instants are natural numbers.
  */
module Chord {
  import opened Types

  type Mask = set<nat>

  const DECK_STATE: u8 := 0x09
  const BUTTONS_AT := 8
  const MIN_REPORT := 16

  predicate HasBit(v: nat, i: nat) {
    if i == 0 then v % 2 == 1 else HasBit(v / 2, i - 1)
  }

  function BitsOf(v: nat): Mask {
    set i: nat | i < 64 && HasBit(v, i)
  }

  function Pow2(n: nat): (p: nat)
    ensures p > 0
  {
    if n == 0 then 1 else 2 * Pow2(n - 1)
  }

  /** A word is determined by its one bits, so nothing is lost in reading it as a set. */
  lemma {:induction false} BitsDetermineWord(v: nat, w: nat, n: nat)
    requires v < Pow2(n) && w < Pow2(n)
    requires forall i: nat :: i < n ==> (HasBit(v, i) <==> HasBit(w, i))
    ensures v == w
    decreases n
  {
    if n > 0 {
      assert HasBit(v, 0) <==> HasBit(w, 0);
      forall i: nat | i < n - 1
        ensures HasBit(v / 2, i) <==> HasBit(w / 2, i)
      {
        assert HasBit(v, i + 1) <==> HasBit(w, i + 1);
      }
      BitsDetermineWord(v / 2, w / 2, n - 1);
    }
  }

  function FromLe(b: Bytes): nat {
    if b == [] then 0 else b[0] + 0x100 * FromLe(b[1..])
  }

  /** The button word of a state report; anything else is no report at all. */
  function Buttons(report: Bytes): Option<Mask> {
    if |report| < MIN_REPORT || report[0] != 1 || report[1] != 0 then None
    else if report[2] != DECK_STATE then None
    else if report[3] < MIN_REPORT - 4 then None
    else Some(BitsOf(FromLe(report[BUTTONS_AT..BUTTONS_AT + 8])))
  }

  function ToLe(v: nat, n: nat): (b: Bytes)
    ensures |b| == n
  {
    if n == 0 then [] else [v % 0x100] + ToLe(v / 0x100, n - 1)
  }

  function Pow256(n: nat): nat {
    if n == 0 then 1 else 0x100 * Pow256(n - 1)
  }

  lemma {:induction false} LeRoundTrip(v: nat, n: nat)
    requires v < Pow256(n)
    ensures FromLe(ToLe(v, n)) == v
    decreases n
  {
    if n > 0 {
      LeRoundTrip(v / 0x100, n - 1);
      assert ToLe(v, n)[1..] == ToLe(v / 0x100, n - 1);
    }
  }

  /** A state report gives its button word back, provided its own length covers it. */
  lemma ReportRoundTrip(v: nat, length: u8, number: Bytes, rest: Bytes)
    requires v < Pow256(8) && |number| == 4
    ensures Buttons([1, 0, DECK_STATE, length] + number + ToLe(v, 8) + rest)
            == if length < 12 then None else Some(BitsOf(v))
  {
    var report := [1, 0, DECK_STATE, length] + number + ToLe(v, 8) + rest;
    assert report[8..16] == ToLe(v, 8);
    LeRoundTrip(v, 8);
  }

  predicate HeldIn(chord: Mask, buttons: Mask) {
    buttons * chord == chord
  }

  // ----------------------------------------------------------------- detector

  /** What a report says about the chord. */
  datatype Obs = Foreign | Released | Held

  function Observe(chord: Mask, report: Bytes): Obs {
    match Buttons(report)
    case None => Foreign
    case Some(b) => if HeldIn(chord, b) then Held else Released
  }

  /** A controller's state report, as far as its header goes. */
  predicate IsStateReport(report: Bytes) {
    |report| >= 16 && report[..3] == [1, 0, 9] && report[3] >= 12
  }

  /** Button `b` is down: bit `b % 8` of byte `b / 8` of the eight from offset 8 on. */
  predicate Down(report: Bytes, b: nat)
    requires |report| >= 16
  {
    b < 64 && report[8 + b / 8] as int / Pow2(b % 8) % 2 == 1
  }

  /**
    * What a report shows, byte by byte: the chord is held exactly when every button of it is down,
    * whatever else is; a state report in which one is up shows it released; nothing else shows anything.
    */
  lemma ObservedExactly(chord: Mask, report: Bytes)
    ensures Observe(chord, report) == if !IsStateReport(report) then Foreign
                                      else if forall b :: b in chord ==> Down(report, b) then Held
                                      else Released
  {
    if IsStateReport(report) {
      assert report[0] == report[..3][0] && report[1] == report[..3][1] && report[2] == report[..3][2];
      var down := BitsOf(FromLe(report[8..16]));
      forall b: nat
        ensures b in down <==> Down(report, b)
      {
        if b < 64 {
          BitOfByte(report[8..16], b);
          BitIsQuotient(report[8 + b / 8], b % 8);
        }
      }
      assert Buttons(report) == Some(down);
    }
  }

  lemma {:induction false} BitIsQuotient(v: nat, i: nat)
    ensures HasBit(v, i) <==> v / Pow2(i) % 2 == 1
    decreases i
  {
    if i > 0 {
      BitIsQuotient(v / 2, i - 1);
      HalvedQuotient(v, Pow2(i - 1));
    }
  }

  lemma HalvedQuotient(v: nat, p: nat)
    requires p > 0
    ensures v / 2 / p == v / (2 * p)
  {
    var q, r := v / (2 * p), v % (2 * p);
    assert v == q * (2 * p) + r == 2 * (q * p) + r;
    assert v / 2 == q * p + r / 2 && r / 2 < p;
    QuotientIs(v / 2, p, q, r / 2);
  }

  lemma QuotientIs(v: nat, p: int, q: nat, r: nat)
    requires r < p && v == q * p + r
    ensures v / p == q
  {
    var d := v / p - q;
    assert d * p == r - v % p;
    assert d >= 1 ==> d * p >= p;
    assert d <= -1 ==> d * p <= -p;
  }

  lemma {:induction false} JoinedBits(x: nat, r: nat, n: nat, i: nat)
    requires x < Pow2(n)
    ensures HasBit(x + Pow2(n) * r, i) <==> if i < n then HasBit(x, i) else HasBit(r, i - n)
    decreases n
  {
    if n > 0 {
      var half := Pow2(n - 1) * r;
      assert Pow2(n) * r == 2 * half;
      assert (x + 2 * half) / 2 == x / 2 + half && (x + 2 * half) % 2 == x % 2;
      if i > 0 {
        JoinedBits(x / 2, r, n - 1, i - 1);
      }
    }
  }

  lemma {:induction false} BitOfByte(b: Bytes, i: nat)
    requires i < 8 * |b|
    ensures HasBit(FromLe(b), i) <==> HasBit(b[i / 8], i % 8)
  {
    assert Pow2(8) == 2 * (2 * (2 * (2 * (2 * (2 * (2 * (2 * Pow2(0)))))))) == 0x100;
    JoinedBits(b[0], FromLe(b[1..]), 8, i);
    if i >= 8 {
      BitOfByte(b[1..], i - 8);
      assert (i - 8) / 8 == i / 8 - 1 && (i - 8) % 8 == i % 8;
      assert b[1..][i / 8 - 1] == b[i / 8];
    }
  }

  datatype Seen = Seen(obs: Obs, at: nat)

  datatype Verdict = Verdict(swallow: bool, fired: bool)

  const IGNORE := Verdict(false, false)

  datatype Hold = Hold(since: Option<nat>, armed: bool)

  const DISARMED := Hold(None, false)

  /** `Instant::duration_since`, which is zero when the clock went backwards. */
  function Elapsed(now: nat, started: nat): nat {
    if now >= started then now - started else 0
  }

  function Feed(d: Hold, hold: nat, seen: Seen): (Hold, Verdict) {
    match seen.obs
    case Foreign => (d, IGNORE)
    case Released => (Hold(None, true), IGNORE)
    case Held =>
      var started := if d.since.Some? then d.since.value else seen.at;
      if !d.armed || Elapsed(seen.at, started) < hold then (d.(since := Some(started)), Verdict(true, false))
      else (Hold(Some(started), false), Verdict(true, true))
  }

  function FeedAll(d: Hold, hold: nat, h: seq<Seen>): Hold {
    if h == [] then d else Feed(FeedAll(d, hold, h[..|h| - 1]), hold, h[|h| - 1]).0
  }

  /** The verdict on report `i` of a detector's life. */
  function VerdictAt(hold: nat, h: seq<Seen>, i: nat): Verdict
    requires i < |h|
  {
    Feed(FeedAll(DISARMED, hold, h[..i]), hold, h[i]).1
  }

  class Detector {
    const chord: Mask
    const hold: nat
    var since: Option<nat>
    var armed: bool

    function View(): Hold
      reads this
    {
      Hold(since, armed)
    }

    constructor (chord: Mask, hold: nat)
      ensures View() == DISARMED && this.chord == chord && this.hold == hold
    {
      this.chord, this.hold := chord, hold;
      since, armed := None, false;
    }

    method FeedReport(report: Bytes, now: nat) returns (v: Verdict)
      modifies this
      ensures View() == Feed(old(View()), hold, Seen(Observe(chord, report), now)).0
      ensures v == Feed(old(View()), hold, Seen(Observe(chord, report), now)).1
    {
      var buttons := Buttons(report);
      if buttons.None? {
        return IGNORE;
      }
      if !HeldIn(chord, buttons.value) {
        since, armed := None, true;
        return IGNORE;
      }
      if since.None? {
        since := Some(now);
      }
      if !armed || Elapsed(now, since.value) < hold {
        return Verdict(true, false);
      }
      armed := false;
      return Verdict(true, true);
    }
  }

  // ------------------------------------------------------- what firing means

  /** Report `k` starts the hold that is current at `i`: the first held one since the release `j`. */
  predicate HoldStarts(h: seq<Seen>, j: int, k: int, i: int) {
    && 0 <= j < k <= i < |h| && h[j].obs.Released? && h[k].obs.Held?
    && (forall m :: j < m <= i ==> !h[m].obs.Released?)
    && (forall m :: j < m < k ==> !h[m].obs.Held?)
  }

  /**
    * The chord should fire at report `i`: it is held there, a release was seen before this
    * hold began, and this is the hold's first report to come at least `hold` after its start.
    */
  ghost predicate ShouldFire(hold: nat, h: seq<Seen>, i: nat) {
    && i < |h| && h[i].obs.Held?
    && exists j, k :: HoldStarts(h, j, k, i) && FirstLongEnough(hold, h, k, i)
  }

  predicate FirstLongEnough(hold: nat, h: seq<Seen>, k: int, i: int)
    requires 0 <= k <= i < |h|
  {
    LongEnough(hold, h[k], h[i]) && forall m :: k <= m < i && h[m].obs.Held? ==> !LongEnough(hold, h[k], h[m])
  }

  /** A clock that has gone backwards has measured nothing. */
  predicate LongEnough(hold: nat, first: Seen, last: Seen) {
    hold == 0 || last.at >= first.at + hold
  }

  /** `rel` is the last release among the first `n` reports (or -1), `k` the first held one after it. */
  ghost predicate Tracks(d: Hold, hold: nat, h: seq<Seen>, n: nat, rel: int, k: int) {
    && n <= |h| && -1 <= rel < n
    && (rel >= 0 ==> h[rel].obs.Released?)
    && (forall m :: rel < m < n ==> !h[m].obs.Released?)
    && (if d.since.Some? then
          && rel < k < n && h[k].obs.Held? && h[k].at == d.since.value
          && (forall m :: rel < m < k ==> !h[m].obs.Held?)
          && (d.armed <==> rel >= 0 && NotYet(hold, h, k, n))
        else
          (forall m :: rel < m < n ==> !h[m].obs.Held?) && (d.armed <==> rel >= 0))
  }

  ghost predicate NotYet(hold: nat, h: seq<Seen>, k: int, n: int)
    requires 0 <= k <= n <= |h|
  {
    forall m :: k <= m < n && h[m].obs.Held? ==> !LongEnough(hold, h[k], h[m])
  }

  lemma {:induction false} DetectorTracks(hold: nat, h: seq<Seen>, n: nat) returns (rel: int, k: int)
    requires n <= |h|
    ensures Tracks(FeedAll(DISARMED, hold, h[..n]), hold, h, n, rel, k)
    decreases n
  {
    if n == 0 {
      rel, k := -1, -1;
    } else {
      rel, k := DetectorTracks(hold, h, n - 1);
      assert h[..n][..n - 1] == h[..n - 1];
      var d := FeedAll(DISARMED, hold, h[..n - 1]);
      match h[n - 1].obs {
        case Foreign =>
        case Released => rel := n - 1;
        case Held =>
          if d.since.None? {
            k := n - 1;
          }
      }
    }
  }

  /** The detector fires exactly where it should, over any report sequence and any clock. */
  lemma DetectorMeetsSpec(hold: nat, h: seq<Seen>, i: nat)
    requires i < |h|
    ensures VerdictAt(hold, h, i).fired <==> ShouldFire(hold, h, i)
    ensures VerdictAt(hold, h, i).swallow <==> h[i].obs.Held?
  {
    var rel, k := DetectorTracks(hold, h, i);
    var d := FeedAll(DISARMED, hold, h[..i]);
    if h[i].obs.Held? {
      var start := if d.since.Some? then k else i;
      if VerdictAt(hold, h, i).fired {
        assert HoldStarts(h, rel, start, i) && FirstLongEnough(hold, h, start, i);
      }
      forall j', k' | HoldStarts(h, j', k', i)
        ensures j' == rel && k' == start
      {
        SameHold(h, j', k', rel, start, i);
      }
    }
  }

  /** There is only one current hold. */
  lemma SameHold(h: seq<Seen>, j: int, k: int, rel: int, start: int, i: int)
    requires HoldStarts(h, j, k, i)
    requires -1 <= rel < start <= i && h[start].obs.Held?
    requires rel >= 0 ==> h[rel].obs.Released?
    requires forall m :: rel < m < i ==> !h[m].obs.Released?
    requires forall m :: rel < m < start ==> !h[m].obs.Held?
    ensures j == rel && k == start
  {
  }

  /** One press is one toggle: the chord is released between any two firings. */
  lemma ReleasedBetweenFirings(hold: nat, h: seq<Seen>, a: nat, b: nat)
    requires a < b < |h| && VerdictAt(hold, h, a).fired && VerdictAt(hold, h, b).fired
    ensures exists m :: a < m < b && h[m].obs.Released?
  {
    DetectorMeetsSpec(hold, h, a);
    DetectorMeetsSpec(hold, h, b);
    var j, k :| HoldStarts(h, j, k, a) && FirstLongEnough(hold, h, k, a);
    var j', k' :| HoldStarts(h, j', k', b) && FirstLongEnough(hold, h, k', b);
  }

  // ---------------------------------------------------------- foreign reports

  function WithoutForeign(h: seq<Seen>): seq<Seen> {
    if h == [] then []
    else WithoutForeign(h[..|h| - 1]) + (if h[|h| - 1].obs.Foreign? then [] else [h[|h| - 1]])
  }

  lemma {:induction false} ForeignLeavesNoTrace(d: Hold, hold: nat, h: seq<Seen>)
    ensures FeedAll(d, hold, WithoutForeign(h)) == FeedAll(d, hold, h)
  {
    if h != [] {
      var before, last := h[..|h| - 1], h[|h| - 1];
      ForeignLeavesNoTrace(d, hold, before);
      if last.obs.Foreign? {
        assert WithoutForeign(h) == WithoutForeign(before);
      } else {
        assert (WithoutForeign(before) + [last])[..|WithoutForeign(before)|] == WithoutForeign(before);
      }
    }
  }

  /** Deleting every foreign report changes no other verdict, and those themselves are ignored. */
  lemma ForeignChangesNoVerdict(hold: nat, h: seq<Seen>, i: nat)
    requires i < |h|
    ensures h[i].obs.Foreign? ==> VerdictAt(hold, h, i) == IGNORE
    ensures !h[i].obs.Foreign? ==>
              var p := |WithoutForeign(h[..i])|;
              var kept := WithoutForeign(h[..i + 1]);
              p == |kept| - 1 && VerdictAt(hold, kept, p) == VerdictAt(hold, h, i)
  {
    if !h[i].obs.Foreign? {
      assert h[..i + 1][..i] == h[..i];
      var before := WithoutForeign(h[..i]);
      var kept := WithoutForeign(h[..i + 1]);
      assert kept == before + [h[i]] && kept[..|before|] == before;
      ForeignLeavesNoTrace(DISARMED, hold, h[..i]);
    }
  }
}
