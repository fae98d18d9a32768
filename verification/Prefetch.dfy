/**
  * Keeping an interrupt IN URB queued at all times (crates/usbfwd-server/src/prefetch.rs),
  * one endpoint at a time. What an endpoint owes its past is stated against a history of
  * events that the code does not keep.
  */
module Prefetch {
  import opened Types
  import opened Usbfs

  const INTERNAL_BASE: u32 := 0x8000_0000
  const DEPTH := 4
  const MAX_CONSECUTIVE_ERRORS := 8

  type Report = Bytes

  datatype Waiter = Waiter(seqnum: u32, maxLen: nat)

  datatype Endpoint = Endpoint(
    number: u8, maxPacket: nat, inFlight: Option<u32>, captured: seq<Report>,
    waiting: Option<Waiter>, errors: nat, disabled: bool)

  datatype Take = Ready(data: Report) | Waiting | PassThrough

  /** What the reaper owes a client that was waiting. */
  datatype Answer = Answer(seqnum: u32, status: i32, data: Report)

  predicate Owns(seqnum: u32) {
    seqnum >= INTERNAL_BASE
  }

  function NewEndpoint(address: u8, maxPacket: nat): Endpoint {
    Endpoint(address % 0x10, maxPacket, None, [], None, 0, false)
  }

  function Truncate(d: Report, n: nat): Report {
    d[..Min(n, |d|)]
  }

  // ----------------------------------------------------------- one endpoint

  predicate WantsUrb(e: Endpoint) {
    !e.disabled && e.inFlight.None?
  }

  /** `arm_one` once the device has answered the submit. */
  function Arm(e: Endpoint, seqnum: u32, r: SubmitResult): Endpoint {
    if !WantsUrb(e) then e
    else
      match r
      case Submitted => e.(inFlight := Some(seqnum))
      case Refused(_) => e.(errors := e.errors + 1, disabled := e.errors + 1 >= MAX_CONSECUTIVE_ERRORS)
      case Handled(_) => e
      case Fatal => e.(disabled := true)
  }

  function TakeFrom(e: Endpoint, w: Waiter): (Endpoint, Take) {
    if e.disabled then (e, PassThrough)
    else if e.captured != [] then
      (e.(captured := e.captured[1..]), Ready(Truncate(e.captured[0], w.maxLen)))
    else (e.(waiting := Some(w)), Waiting)
  }

  /** An internal URB came back, before the endpoint is armed again. */
  function Complete(e: Endpoint, status: i32, data: Report): (Endpoint, Option<Answer>) {
    var idle := e.(inFlight := None, waiting := None);
    if status != 0 then
      var failed := idle.(errors := e.errors + 1);
      (if e.errors + 1 >= MAX_CONSECUTIVE_ERRORS then failed.(disabled := true, captured := []) else failed,
       if e.waiting.Some? then Some(Answer(e.waiting.value.seqnum, status, [])) else None)
    else if e.waiting.Some? then
      (idle.(errors := 0),
       Some(Answer(e.waiting.value.seqnum, 0, Truncate(data, e.waiting.value.maxLen))))
    else
      var kept := if |e.captured| == DEPTH then e.captured[1..] else e.captured;
      (idle.(errors := 0, captured := kept + [data]), None)
  }

  function Shut(e: Endpoint): Endpoint {
    e.(disabled := true, waiting := None, captured := [], inFlight := None)
  }

  // ------------------------------------------------- what the past has been

  datatype Event = Good(data: Report) | Bad | Refusal | Gone | Handed(report: Report)

  /** Reports the device delivered, oldest first. */
  function Goods(h: seq<Event>): seq<Report> {
    if h == [] then []
    else Goods(Prior(h)) + (if Latest(h).Good? then [Latest(h).data] else [])
  }

  /** Reports handed to clients (before truncation), oldest first. */
  function HandedOut(h: seq<Event>): seq<Report> {
    if h == [] then []
    else HandedOut(Prior(h)) + (if Latest(h).Handed? then [Latest(h).report] else [])
  }

  /** Failed URBs and refused submits since the last good report. */
  function FailuresSinceGood(h: seq<Event>): nat {
    if h == [] || Latest(h).Good? then 0
    else FailuresSinceGood(Prior(h)) + (if Latest(h).Bad? || Latest(h).Refusal? then 1 else 0)
  }

  /** How many reports a four-deep, drop-the-oldest queue holds. */
  function Backlog(h: seq<Event>): int {
    if h == [] then 0
    else if Latest(h).Good? then (if Backlog(Prior(h)) < 4 then Backlog(Prior(h)) + 1 else 4)
    else if Latest(h).Handed? then Backlog(Prior(h)) - 1
    else Backlog(Prior(h))
  }

  function Latest(h: seq<Event>): Event
    requires h != []
  {
    h[|h| - 1]
  }

  function Prior(h: seq<Event>): seq<Event>
    requires h != []
  {
    h[..|h| - 1]
  }

  /** `a` is `b` with some elements left out: order kept, none used twice. */
  predicate SubsequenceOf(a: seq<Report>, b: seq<Report>)
    decreases |b|
  {
    a == [] ||
    (b != [] &&
     (SubsequenceOf(a, b[..|b| - 1]) ||
      (a[|a| - 1] == b[|b| - 1] && SubsequenceOf(a[..|a| - 1], b[..|b| - 1]))))
  }

  lemma SubsequenceSkip(a: seq<Report>, b: seq<Report>, x: Report)
    requires SubsequenceOf(a, b)
    ensures SubsequenceOf(a, b + [x])
  {
    assert (b + [x])[..|b|] == b;
  }

  lemma SubsequenceKeep(a: seq<Report>, b: seq<Report>, x: Report)
    requires SubsequenceOf(a, b)
    ensures SubsequenceOf(a + [x], b + [x])
  {
    assert (b + [x])[..|b|] == b && (a + [x])[..|a|] == a;
  }

  lemma {:induction false} SubsequenceOfPrefix(a: seq<Report>, b: seq<Report>, n: nat)
    requires n <= |b| && SubsequenceOf(a, b[..n])
    ensures SubsequenceOf(a, b)
    decreases |b| - n
  {
    if n == |b| {
      assert b[..n] == b;
    } else {
      SubsequenceSkip(a, b[..n], b[n]);
      assert b[..n + 1] == b[..n] + [b[n]];
      SubsequenceOfPrefix(a, b, n + 1);
    }
  }

  /** The buffer is the youngest of the good reports, and what was handed out came from the older ones. */
  predicate Buffers(good: seq<Report>, handed: seq<Report>, captured: seq<Report>) {
    && |captured| <= |good| && captured == good[|good| - |captured|..]
    && SubsequenceOf(handed, good[..|good| - |captured|])
  }

  lemma BuffersTake(good: seq<Report>, handed: seq<Report>, captured: seq<Report>)
    requires Buffers(good, handed, captured) && captured != []
    ensures Buffers(good, handed + [captured[0]], captured[1..])
    ensures SubsequenceOf(handed + [captured[0]], good)
  {
    var n := |good| - |captured|;
    assert good[..n + 1] == good[..n] + [captured[0]] && captured[1..] == good[n + 1..];
    SubsequenceKeep(handed, good[..n], captured[0]);
    SubsequenceOfPrefix(handed + [captured[0]], good, n + 1);
  }

  lemma BuffersDrop(good: seq<Report>, handed: seq<Report>, captured: seq<Report>)
    requires Buffers(good, handed, captured) && captured != []
    ensures Buffers(good, handed, captured[1..])
  {
    var n := |good| - |captured|;
    assert good[..n + 1] == good[..n] + [captured[0]] && captured[1..] == good[n + 1..];
    SubsequenceSkip(handed, good[..n], captured[0]);
  }

  lemma BuffersGood(good: seq<Report>, handed: seq<Report>, captured: seq<Report>, data: Report)
    requires Buffers(good, handed, captured)
    ensures Buffers(good + [data], handed, captured + [data])
    ensures SubsequenceOf(handed, good + [data])
  {
    var n, g := |good| - |captured|, good + [data];
    assert g[..n] == good[..n] && g[n..] == captured + [data];
    SubsequenceOfPrefix(handed, g, n);
  }

  /**
    * What an endpoint that has been armed owes its history `h`.
    * Enabled: the buffer is the youngest `Backlog` good reports, the error count is the
    * number of failures since the last of them, and being idle means the last thing tried
    * failed. Disabled: nothing in flight. Always: reports go out in order, none twice.
    */
  ghost predicate Consistent(e: Endpoint, h: seq<Event>) {
    && (e.disabled ==> e.inFlight.None?)
    && SubsequenceOf(HandedOut(h), Goods(h))
    && (e.waiting.Some? ==> e.captured == [])
    && (e.waiting.Some? && e.inFlight.None? ==> h != [] && (Latest(h).Refusal? || Latest(h).Gone?))
    && (!e.disabled ==>
          && e.errors == FailuresSinceGood(h) < 8
          && (e.inFlight.None? ==> e.errors > 0)
          && 0 <= Backlog(h) == |e.captured| <= 4
          && Buffers(Goods(h), HandedOut(h), e.captured))
  }

  /** Everything `Consistent` says of an endpoint, except that it has been armed. */
  ghost predicate Recorded(e: Endpoint, h: seq<Event>) {
    && e.inFlight.None?
    && SubsequenceOf(HandedOut(h), Goods(h))
    && (e.waiting.Some? ==> e.captured == [])
    && (!e.disabled ==>
          && e.errors == FailuresSinceGood(h) < 8
          && 0 <= Backlog(h) == |e.captured| <= 4
          && Buffers(Goods(h), HandedOut(h), e.captured))
  }

  function ArmEvents(e: Endpoint, r: SubmitResult): seq<Event> {
    if !WantsUrb(e) then []
    else
      match r
      case Refused(_) => [Refusal]
      case Fatal => [Gone]
      case _ => []
  }

  function TakeEvents(e: Endpoint): seq<Event> {
    if !e.disabled && e.captured != [] then [Handed(e.captured[0])] else []
  }

  function CompleteEvents(e: Endpoint, status: i32, data: Report): seq<Event> {
    if status != 0 then [Bad]
    else if e.waiting.Some? then [Good(data), Handed(data)]
    else [Good(data)]
  }

  /** How one more event changes each reading of the history. */
  lemma EventStep(h: seq<Event>, v: Event)
    ensures Latest(h + [v]) == v && Prior(h + [v]) == h
    ensures Goods(h + [v]) == if v.Good? then Goods(h) + [v.data] else Goods(h)
    ensures HandedOut(h + [v]) == if v.Handed? then HandedOut(h) + [v.report] else HandedOut(h)
    ensures FailuresSinceGood(h + [v]) ==
              if v.Good? then 0 else FailuresSinceGood(h) + (if v.Bad? || v.Refusal? then 1 else 0)
    ensures Backlog(h + [v]) ==
              if v.Good? then (if Backlog(h) < 4 then Backlog(h) + 1 else 4)
              else if v.Handed? then Backlog(h) - 1
              else Backlog(h)
  {
    assert Prior(h + [v]) == h;
    assert Goods(h) + [] == Goods(h) && HandedOut(h) + [] == HandedOut(h);
  }

  lemma ArmRecorded(e: Endpoint, h: seq<Event>, seqnum: u32, r: SubmitResult)
    requires Recorded(e, h) && !r.Handled?
    requires e.disabled ==> e.waiting.None?
    ensures Consistent(Arm(e, seqnum, r), h + ArmEvents(e, r))
  {
    if WantsUrb(e) && r.Refused? {
      RefusalRecorded(e, h);
    } else if WantsUrb(e) && r.Fatal? {
      EventStep(h, Gone);
    } else {
      assert h + ArmEvents(e, r) == h;
    }
  }

  lemma RefusalRecorded(e: Endpoint, h: seq<Event>)
    requires Recorded(e, h) && !e.disabled
    ensures Consistent(e.(errors := e.errors + 1, disabled := e.errors + 1 >= MAX_CONSECUTIVE_ERRORS), h + [Refusal])
  {
    EventStep(h, Refusal);
    assert FailuresSinceGood(h + [Refusal]) == FailuresSinceGood(h) + 1 && Backlog(h + [Refusal]) == Backlog(h);
  }

  lemma ArmConsistent(e: Endpoint, h: seq<Event>, seqnum: u32, r: SubmitResult)
    requires Consistent(e, h) && !r.Handled?
    ensures Consistent(Arm(e, seqnum, r), h + ArmEvents(e, r))
  {
    if WantsUrb(e) {
      ArmRecorded(e, h, seqnum, r);
    } else {
      assert h + ArmEvents(e, r) == h;
    }
  }

  /** A client submit: hand out the oldest report, or wait, and re-arm if idle. */
  lemma TakeConsistent(e: Endpoint, h: seq<Event>, w: Waiter, seqnum: u32, r: SubmitResult)
    requires Consistent(e, h) && !r.Handled?
    ensures var e1 := TakeFrom(e, w).0;
            Consistent(Arm(e1, seqnum, r), h + TakeEvents(e) + ArmEvents(e1, r))
  {
    var e1 := TakeFrom(e, w).0;
    var h1 := h + TakeEvents(e);
    if e.disabled {
      assert h1 == h;
      ArmConsistent(e1, h1, seqnum, r);
    } else if e.captured != [] {
      TakeHandsOldest(e, h);
      ArmConsistent(e1, h1, seqnum, r);
    } else {
      assert h1 == h;
      if e1.inFlight.None? {
        ArmRecorded(e1, h1, seqnum, r);
      } else {
        assert h1 + ArmEvents(e1, r) == h;
      }
    }
  }

  // ------------------------------------------------------- when it is given up on

  /** The eighth failure in a row with no good report between, or the device gone. */
  predicate GaveUp(h: seq<Event>) {
    FailuresSinceGood(h) >= 8 || (h != [] && Latest(h).Gone?)
  }

  /** Given up on exactly as the history says, with the failures counted up to then. */
  predicate CountsFailures(e: Endpoint, h: seq<Event>) {
    (e.disabled <==> GaveUp(h)) && (!e.disabled ==> e.errors == FailuresSinceGood(h))
  }

  lemma ArmCountsFailures(e: Endpoint, h: seq<Event>, seqnum: u32, r: SubmitResult)
    requires CountsFailures(e, h) && !r.Handled?
    ensures CountsFailures(Arm(e, seqnum, r), h + ArmEvents(e, r))
  {
    if WantsUrb(e) && r.Refused? {
      EventStep(h, Refusal);
    } else if WantsUrb(e) && r.Fatal? {
      EventStep(h, Gone);
    } else {
      assert h + ArmEvents(e, r) == h;
    }
  }

  lemma TakeCountsFailures(e: Endpoint, h: seq<Event>, w: Waiter, seqnum: u32, r: SubmitResult)
    requires CountsFailures(e, h) && !r.Handled?
    ensures var e1 := TakeFrom(e, w).0;
            CountsFailures(Arm(e1, seqnum, r), h + TakeEvents(e) + ArmEvents(e1, r))
  {
    if TakeEvents(e) == [] {
      assert h + TakeEvents(e) == h;
    } else {
      EventStep(h, Handed(e.captured[0]));
    }
    ArmCountsFailures(TakeFrom(e, w).0, h + TakeEvents(e), seqnum, r);
  }

  lemma DeliverCountsFailures(e: Endpoint, h: seq<Event>, status: i32, data: Report, seqnum: u32, r: SubmitResult)
    requires CountsFailures(e, h) && !e.disabled && !r.Handled?
    ensures var e1 := Complete(e, status, data).0;
            CountsFailures(Arm(e1, seqnum, r), h + CompleteEvents(e, status, data) + ArmEvents(e1, r))
  {
    var h1 := h + CompleteEvents(e, status, data);
    if status != 0 {
      EventStep(h, Bad);
    } else {
      EventStep(h, Good(data));
      EventStep(h + [Good(data)], Handed(data));
      assert h + [Good(data), Handed(data)] == h + [Good(data)] + [Handed(data)];
    }
    ArmCountsFailures(Complete(e, status, data).0, h1, seqnum, r);
  }

  lemma TakeHandsOldest(e: Endpoint, h: seq<Event>)
    requires Consistent(e, h) && !e.disabled && e.captured != []
    ensures Consistent(e.(captured := e.captured[1..]), h + [Handed(e.captured[0])])
  {
    EventStep(h, Handed(e.captured[0]));
    BuffersTake(Goods(h), HandedOut(h), e.captured);
  }

  /** A completion: answer the waiter or buffer the report, count failures, re-arm. */
  lemma DeliverConsistent(e: Endpoint, h: seq<Event>, status: i32, data: Report, seqnum: u32, r: SubmitResult)
    requires Consistent(e, h) && e.inFlight.Some? && !r.Handled?
    ensures var e1 := Complete(e, status, data).0;
            Consistent(Arm(e1, seqnum, r), h + CompleteEvents(e, status, data) + ArmEvents(e1, r))
  {
    var e1 := Complete(e, status, data).0;
    var h1 := h + CompleteEvents(e, status, data);
    if status != 0 {
      EventStep(h, Bad);
    } else if e.waiting.Some? {
      GoodAnswered(e, h, data);
    } else {
      GoodBuffered(e, h, data);
    }
    ArmRecorded(e1, h1, seqnum, r);
  }

  lemma GoodAnswered(e: Endpoint, h: seq<Event>, data: Report)
    requires Consistent(e, h) && e.inFlight.Some? && e.waiting.Some?
    ensures Recorded(Complete(e, 0, data).0, h + [Good(data), Handed(data)])
  {
    var h1 := h + [Good(data)];
    assert h + [Good(data), Handed(data)] == h1 + [Handed(data)];
    EventStep(h, Good(data));
    EventStep(h1, Handed(data));
    var g := Goods(h);
    assert g[..|g|] == g;
    SubsequenceKeep(HandedOut(h), g, data);
    assert (g + [data])[..|g| + 1] == g + [data];
  }

  lemma GoodBuffered(e: Endpoint, h: seq<Event>, data: Report)
    requires Consistent(e, h) && e.inFlight.Some? && e.waiting.None?
    ensures Recorded(Complete(e, 0, data).0, h + [Good(data)])
  {
    EventStep(h, Good(data));
    if |e.captured| == DEPTH {
      BuffersDrop(Goods(h), HandedOut(h), e.captured);
      BuffersGood(Goods(h), HandedOut(h), e.captured[1..], data);
    } else {
      BuffersGood(Goods(h), HandedOut(h), e.captured, data);
    }
  }

  /** `d` is report `x`, cut to `n` bytes if it is longer. */
  predicate CutTo(d: Report, x: Report, n: nat) {
    d <= x && |d| == Min(|x|, n)
  }

  /** What a client is given is the very report the history says was handed out, cut to its buffer. */
  lemma ClientGetsHandedReport(e: Endpoint, w: Waiter, status: i32, data: Report)
    ensures TakeFrom(e, w).1.Ready? ==>
              exists x :: TakeEvents(e) == [Handed(x)] && CutTo(TakeFrom(e, w).1.data, x, w.maxLen)
    ensures var answer := Complete(e, status, data).1;
            && (answer.Some? <==> e.waiting.Some?)
            && (answer.Some? ==> answer.value.seqnum == e.waiting.value.seqnum && answer.value.status == status)
            && (answer.Some? && status == 0 ==>
                  CompleteEvents(e, status, data) == [Good(data), Handed(data)]
                  && CutTo(answer.value.data, data, e.waiting.value.maxLen))
  {
    if TakeFrom(e, w).1.Ready? {
      var x := e.captured[0];
      assert TakeEvents(e) == [Handed(x)] && CutTo(TakeFrom(e, w).1.data, x, w.maxLen);
    }
  }

  /** A new endpoint's first `arm`. */
  lemma FirstArmConsistent(address: u8, maxPacket: nat, seqnum: u32, r: SubmitResult)
    requires !r.Handled?
    ensures Consistent(Arm(NewEndpoint(address, maxPacket), seqnum, r),
                       ArmEvents(NewEndpoint(address, maxPacket), r))
  {
    var e := NewEndpoint(address, maxPacket);
    assert [] + ArmEvents(e, r) == ArmEvents(e, r);
    ArmRecorded(e, [], seqnum, r);
  }
}
