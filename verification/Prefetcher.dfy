/**
  * The lock around the endpoints (`Prefetch` and `Inner` of
  * crates/usbfwd-server/src/prefetch.rs), together with the submits made while holding it.
  * The `Do*` functions are the atomic steps; the class is the code that takes them.
  */
module Prefetcher {
  import opened Types
  import opened Pdu
  import opened Usbfs
  import opened Prefetch

  /** A disabled prefetcher is one with no endpoints: every call then falls through. */
  datatype Inner = Inner(eps: map<u8, Endpoint>, next: u32)

  function NextSeqnum(n: u32): u32 {
    if n == 0xffff_ffff then INTERNAL_BASE else Max(n + 1, INTERNAL_BASE)
  }

  function InternalRequest(e: Endpoint, seqnum: u32): UrbRequest {
    UrbRequest(seqnum, e.number, In, [0, 0, 0, 0, 0, 0, 0, 0], e.maxPacket, [])
  }

  /** The device's answer to the submit `arm_one` would make. */
  function ArmResult(dev: Device, p: Inner, t: Table, address: u8, k: Ioctl): SubmitResult
    requires address in p.eps
  {
    DoSubmit(dev, t, InternalRequest(p.eps[address], p.next), k).1
  }

  function ArmOne(dev: Device, p: Inner, t: Table, address: u8, k: Ioctl): (Inner, Table) {
    if address !in p.eps || !WantsUrb(p.eps[address]) then (p, t)
    else
      var (t', r) := DoSubmit(dev, t, InternalRequest(p.eps[address], p.next), k);
      (Inner(p.eps[address := Arm(p.eps[address], p.next, r)],
             if r.Submitted? then NextSeqnum(p.next) else p.next), t')
  }

  /** One attempt after another, each with the kernel's answer to its submit. */
  function ArmMany(dev: Device, p: Inner, t: Table, order: seq<(u8, Ioctl)>): (Inner, Table)
    decreases |order|
  {
    if order == [] then (p, t)
    else
      var (p', t') := ArmOne(dev, p, t, order[0].0, order[0].1);
      ArmMany(dev, p', t', order[1..])
  }

  function Addresses(order: seq<(u8, Ioctl)>): set<u8> {
    set i | 0 <= i < |order| :: order[i].0
  }

  /** Each of these addresses comes up exactly once. */
  predicate Walks(order: seq<(u8, Ioctl)>, addresses: set<u8>) {
    Addresses(order) == addresses && forall i, j :: 0 <= i < j < |order| ==> order[i].0 != order[j].0
  }

  lemma {:induction false} ArmOneMore(dev: Device, p: Inner, t: Table, order: seq<(u8, Ioctl)>, a: u8, k: Ioctl)
    ensures var (p', t') := ArmMany(dev, p, t, order);
            ArmMany(dev, p, t, order + [(a, k)]) == ArmOne(dev, p', t', a, k)
    decreases |order|
  {
    if order == [] {
      assert order + [(a, k)] == [(a, k)];
    } else {
      var (p1, t1) := ArmOne(dev, p, t, order[0].0, order[0].1);
      assert (order + [(a, k)])[1..] == order[1..] + [(a, k)];
      ArmOneMore(dev, p1, t1, order[1..], a, k);
    }
  }

  lemma WalksOn(order: seq<(u8, Ioctl)>, addresses: set<u8>, a: u8, k: Ioctl)
    requires Walks(order, addresses) && a !in addresses
    ensures Walks(order + [(a, k)], addresses + {a})
  {
    var more := order + [(a, k)];
    forall i | 0 <= i < |order|
      ensures order[i].0 in addresses
    {
      assert order[i].0 in Addresses(order);
    }
    forall b | b in addresses + {a}
      ensures b in Addresses(more)
    {
      if b == a {
        assert more[|order|].0 == a;
      } else {
        var i :| 0 <= i < |order| && order[i].0 == b;
        assert more[i].0 == b;
      }
    }
  }

  /** What an endpoint has in flight is in the device's table, and an attempt to arm keeps it so. */
  lemma {:induction false} ArmedIsPending(dev: Device, p: Inner, t: Table, order: seq<(u8, Ioctl)>)
    requires InFlight(p) <= t.pending.Keys
    ensures var (p', t') := ArmMany(dev, p, t, order); InFlight(p') <= t'.pending.Keys
    decreases |order|
  {
    if order != [] {
      OneArmedIsPending(dev, p, t, order[0].0, order[0].1);
      var (p1, t1) := ArmOne(dev, p, t, order[0].0, order[0].1);
      ArmedIsPending(dev, p1, t1, order[1..]);
    }
  }

  lemma OneArmedIsPending(dev: Device, p: Inner, t: Table, a: u8, k: Ioctl)
    requires InFlight(p) <= t.pending.Keys
    ensures var (p', t') := ArmOne(dev, p, t, a, k); InFlight(p') <= t'.pending.Keys
  {
    var (p', t') := ArmOne(dev, p, t, a, k);
    forall b | b in p'.eps && p'.eps[b].inFlight.Some?
      ensures p'.eps[b].inFlight.value in t'.pending
    {
      assert b in p.eps && p.eps[b].inFlight.Some? ==> p.eps[b].inFlight.value in InFlight(p);
    }
  }

  /** The endpoints as `take` leaves them, before the re-arm. */
  function Taken(p: Inner, a: u8, w: Waiter): Inner
    requires a in p.eps
  {
    p.(eps := p.eps[a := TakeFrom(p.eps[a], w).0])
  }

  function DoTake(dev: Device, p: Inner, t: Table, address: u8, w: Waiter, k: Ioctl): (Inner, Table, Take) {
    if address !in p.eps || p.eps[address].disabled then (p, t, PassThrough)
    else
      var (p', t') := ArmOne(dev, Taken(p, address, w), t, address, k);
      (p', t', TakeFrom(p.eps[address], w).1)
  }

  /** The endpoints once a completion has been dealt with, before the re-arm. */
  function Delivered(p: Inner, a: u8, status: i32, data: Report): Inner
    requires a in p.eps
  {
    p.(eps := p.eps[a := Complete(p.eps[a], status, data).0])
  }

  /** `deliver`, once the endpoint that had this URB in flight has been found. */
  function DoDeliver(dev: Device, p: Inner, t: Table, address: u8, status: i32, data: Report, k: Ioctl)
    : (Inner, Table, Option<Answer>)
    requires address in p.eps
  {
    var (p', t') := ArmOne(dev, Delivered(p, address, status, data), t, address, k);
    (p', t', Complete(p.eps[address], status, data).1)
  }

  predicate WaitsFor(p: Inner, address: u8, seqnum: u32) {
    address in p.eps && p.eps[address].waiting.Some? && p.eps[address].waiting.value.seqnum == seqnum
  }

  function DropWaiter(p: Inner, address: u8): Inner
    requires address in p.eps
  {
    p.(eps := p.eps[address := p.eps[address].(waiting := None)])
  }

  function ShutAll(p: Inner): Inner {
    p.(eps := map a | a in p.eps :: Shut(p.eps[a]))
  }

  /** Seqnums of the internal URBs believed to be in flight. */
  function InFlight(p: Inner): set<u32> {
    set a | a in p.eps && p.eps[a].inFlight.Some? :: p.eps[a].inFlight.value
  }

  /**
    * The submit made for an interrupt IN endpoint: a URB on that very endpoint, for one packet of
    * it, under a seqnum of the internal range; refused if the device does not allow a transfer of that size.
    */
  lemma InternalUrbIsOnePacket(dev: Device, a: u8, maxPacket: u16, q: u32)
    requires 0x80 < a < 0x90 && a in dev.epTypes && dev.epTypes[a].Interrupt?
    ensures var p := Prepare(dev, InternalRequest(NewEndpoint(a, maxPacket), q));
            if maxPacket > dev.maxTransfer then p == Answered(Refused(-22))
            else
              && p.Built? && p.urb.seqnum == q && p.urb.endpoint == a && p.urb.typ == Interrupt && p.urb.dir == In
              && p.urb.length == p.urb.maxReply == maxPacket && p.urb.dataOffset == 0
              && |p.urb.buffer| == Max(maxPacket, 1) && (forall b :: b in p.urb.buffer ==> b == 0)
  {
  }

  /** Seqnums count up, and stay in the internal range even when they wrap. */
  lemma NextSeqnumCounts(n: u32)
    ensures NextSeqnum(n) >= 0x8000_0000
    ensures 0x8000_0000 <= n < 0xffff_ffff ==> NextSeqnum(n) == n + 1
    ensures n == 0xffff_ffff ==> NextSeqnum(n) == 0x8000_0000
  {
  }

  lemma InternalSubmitNotHandled(dev: Device, p: Inner, t: Table, address: u8, k: Ioctl)
    requires address in p.eps
    ensures !ArmResult(dev, p, t, address, k).Handled?
  {
    InternalUrbIsNeverHandled(dev, InternalRequest(p.eps[address], p.next));
  }

  /** One attempt to arm, whatever the device said. */
  ghost predicate Attempted(e: Endpoint, e': Endpoint) {
    exists n: u32, r: SubmitResult :: !r.Handled? && e' == Arm(e, n, r)
  }

  lemma ArmIsAttempt(dev: Device, p: Inner, t: Table, a: u8, k: Ioctl)
    requires a in p.eps
    ensures var p' := ArmOne(dev, p, t, a, k).0;
            && p'.eps.Keys == p.eps.Keys && Attempted(p.eps[a], p'.eps[a])
            && forall b :: b in p.eps && b != a ==> p'.eps[b] == p.eps[b]
  {
    InternalSubmitNotHandled(dev, p, t, a, k);
    assert ArmOne(dev, p, t, a, k).0.eps[a] == Arm(p.eps[a], p.next, ArmResult(dev, p, t, a, k));
  }

  class Prefetcher {
    var eps: map<u8, Endpoint>
    var next: u32

    function View(): Inner
      reads this
    {
      Inner(eps, next)
    }

    /** `Prefetch::new`, from the interrupt IN endpoints the device reports. */
    constructor (endpoints: seq<(u8, u16)>, enabled: bool)
      requires forall i, j :: 0 <= i < j < |endpoints| ==> endpoints[i].0 != endpoints[j].0
      ensures next == INTERNAL_BASE
      ensures forall a :: a in eps <==> enabled && exists i :: 0 <= i < |endpoints| && endpoints[i].0 == a
      ensures enabled ==> forall i :: 0 <= i < |endpoints| ==>
                endpoints[i].0 in eps && eps[endpoints[i].0] == NewEndpoint(endpoints[i].0, endpoints[i].1)
    {
      eps := map[];
      next := INTERNAL_BASE;
      new;
      if enabled {
        for n := 0 to |endpoints|
          invariant next == INTERNAL_BASE
          invariant forall a :: a in eps <==> exists i :: 0 <= i < n && endpoints[i].0 == a
          invariant forall i :: 0 <= i < n ==>
                      endpoints[i].0 in eps && eps[endpoints[i].0] == NewEndpoint(endpoints[i].0, endpoints[i].1)
        {
          eps := eps[endpoints[n].0 := NewEndpoint(endpoints[n].0, endpoints[n].1)];
        }
      }
    }

    method ArmEndpoint(address: u8, dev: UsbfsDevice, k: Ioctl)
      requires dev.Valid()
      modifies this, dev
      ensures dev.Valid()
      ensures View() == ArmOne(dev.dev, old(View()), old(dev.View()), address, k).0
      ensures dev.View() == ArmOne(dev.dev, old(View()), old(dev.View()), address, k).1
    {
      var seqnum := next;
      if address !in eps || eps[address].disabled || eps[address].inFlight.Some? {
        return;
      }
      var e := eps[address];
      var r := dev.Submit(InternalRequest(e, seqnum), k);
      match r {
        case Submitted =>
          e := e.(inFlight := Some(seqnum));
          next := NextSeqnum(next);
        case Refused(_) =>
          e := e.(errors := e.errors + 1);
          if e.errors >= MAX_CONSECUTIVE_ERRORS {
            e := e.(disabled := true);
          }
        case Handled(_) =>
        case Fatal =>
          e := e.(disabled := true);
      }
      assert e == Arm(eps[address], seqnum, r);
      eps := eps[address := e];
    }

    /** `arm`: every endpoint gets its attempt, in whatever order (`order`) the map is walked. */
    method ArmAll(dev: UsbfsDevice) returns (ghost order: seq<(u8, Ioctl)>)
      requires dev.Valid()
      modifies this, dev
      ensures dev.Valid() && eps.Keys == old(eps).Keys && Walks(order, eps.Keys)
      ensures (View(), dev.View()) == ArmMany(dev.dev, old(View()), old(dev.View()), order)
      ensures forall a :: a in eps ==> Attempted(old(eps)[a], eps[a])
      ensures InFlight(old(View())) <= old(dev.pending).Keys ==> InFlight(View()) <= dev.pending.Keys
    {
      ghost var p, t := View(), dev.View();
      order := [];
      var todo := eps.Keys;
      while todo != {}
        invariant dev.Valid() && todo <= eps.Keys == old(eps).Keys && Walks(order, eps.Keys - todo)
        invariant (View(), dev.View()) == ArmMany(dev.dev, p, t, order)
        invariant forall a :: a in todo ==> eps[a] == old(eps)[a]
        invariant forall a :: a in eps && a !in todo ==> Attempted(old(eps)[a], eps[a])
        decreases todo
      {
        var a :| a in todo;
        var k: Ioctl := *;
        ArmIsAttempt(dev.dev, View(), dev.View(), a, k);
        ArmOneMore(dev.dev, p, t, order, a, k);
        WalksOn(order, eps.Keys - todo, a, k);
        ArmEndpoint(a, dev, k);
        assert eps.Keys - todo + {a} == eps.Keys - (todo - {a});
        order, todo := order + [(a, k)], todo - {a};
      }
      if InFlight(p) <= t.pending.Keys {
        ArmedIsPending(dev.dev, p, t, order);
      }
    }

    method Take(dev: UsbfsDevice, address: u8, seqnum: u32, maxLen: nat, k: Ioctl) returns (take: Take)
      requires dev.Valid()
      modifies this, dev
      ensures dev.Valid()
      ensures View() == DoTake(dev.dev, old(View()), old(dev.View()), address, Waiter(seqnum, maxLen), k).0
      ensures dev.View() == DoTake(dev.dev, old(View()), old(dev.View()), address, Waiter(seqnum, maxLen), k).1
      ensures take == DoTake(dev.dev, old(View()), old(dev.View()), address, Waiter(seqnum, maxLen), k).2
    {
      if address !in eps || eps[address].disabled {
        return PassThrough;
      }
      var e := eps[address];
      if e.captured != [] {
        take := Ready(Truncate(e.captured[0], maxLen));
        e := e.(captured := e.captured[1..]);
      } else {
        e := e.(waiting := Some(Waiter(seqnum, maxLen)));
        take := Waiting;
      }
      eps := eps[address := e];
      ArmEndpoint(address, dev, k);
    }

    method Deliver(seqnum: u32, status: i32, data: Report, dev: UsbfsDevice, k: Ioctl)
      returns (reply: Option<Answer>, ghost at: Option<u8>)
      requires dev.Valid()
      modifies this, dev
      ensures dev.Valid()
      ensures at.None? ==> reply.None? && View() == old(View()) && dev.View() == old(dev.View())
                           && seqnum !in InFlight(old(View()))
      ensures at.Some? ==> at.value in old(eps) && old(eps)[at.value].inFlight == Some(seqnum)
      ensures at.Some? ==>
                var after := DoDeliver(dev.dev, old(View()), old(dev.View()), at.value, status, data, k);
                View() == after.0 && dev.View() == after.1 && reply == after.2
    {
      var found := FindInFlight(seqnum);
      at := found;
      if found.None? {
        return None, at;
      }
      var address := found.value;
      var e := eps[address].(inFlight := None);
      reply := None;
      if status != 0 {
        e := e.(errors := e.errors + 1);
        if e.waiting.Some? {
          reply := Some(Answer(e.waiting.value.seqnum, status, []));
          e := e.(waiting := None);
        }
        if e.errors >= MAX_CONSECUTIVE_ERRORS {
          e := e.(disabled := true, captured := []);
        }
      } else {
        e := e.(errors := 0);
        if e.waiting.Some? {
          reply := Some(Answer(e.waiting.value.seqnum, 0, Truncate(data, e.waiting.value.maxLen)));
          e := e.(waiting := None);
        } else {
          if |e.captured| == DEPTH {
            e := e.(captured := e.captured[1..]);
          }
          e := e.(captured := e.captured + [data]);
        }
      }
      assert (e, reply) == Complete(old(eps)[address], status, data);
      eps := eps[address := e];
      ArmEndpoint(address, dev, k);
    }

    method FindInFlight(seqnum: u32) returns (at: Option<u8>)
      ensures at.Some? ==> at.value in eps && eps[at.value].inFlight == Some(seqnum)
      ensures at.None? ==> forall a :: a in eps ==> eps[a].inFlight != Some(seqnum)
    {
      var todo := eps.Keys;
      while todo != {}
        invariant todo <= eps.Keys
        invariant forall a :: a in eps && a !in todo ==> eps[a].inFlight != Some(seqnum)
        decreases todo
      {
        var a :| a in todo;
        if eps[a].inFlight == Some(seqnum) {
          return Some(a);
        }
        todo := todo - {a};
      }
      return None;
    }

    /** `unlink`: cancels one waiter, if this seqnum is waiting anywhere. */
    method Unlink(seqnum: u32) returns (found: bool, ghost at: u8)
      modifies this
      ensures found <==> exists a :: WaitsFor(old(View()), a, seqnum)
      ensures found ==> WaitsFor(old(View()), at, seqnum) && View() == DropWaiter(old(View()), at)
      ensures !found ==> View() == old(View())
    {
      at := 0;
      var todo := eps.Keys;
      while todo != {}
        invariant todo <= eps.Keys && View() == old(View())
        invariant forall a :: a in eps && a !in todo ==> !WaitsFor(View(), a, seqnum)
        decreases todo
      {
        var a :| a in todo;
        if eps[a].waiting.Some? && eps[a].waiting.value.seqnum == seqnum {
          assert WaitsFor(View(), a, seqnum);
          eps := eps[a := eps[a].(waiting := None)];
          return true, a;
        }
        todo := todo - {a};
      }
      return false, 0;
    }

    /** `shutdown`: nothing waits, nothing is buffered, nothing will be armed again. */
    method Shutdown(dev: UsbfsDevice)
      requires dev.Valid()
      modifies this, dev
      ensures dev.Valid() && View() == ShutAll(old(View()))
      ensures dev.View() == MarkUnlinked(old(dev.View()), InFlight(old(View())))
      ensures forall a :: a in eps ==>
                eps[a].disabled && eps[a].waiting.None? && eps[a].captured == [] && eps[a].inFlight.None?
    {
      ghost var done: set<u32> := {};
      ghost var before := dev.View();
      var todo := eps.Keys;
      while todo != {}
        invariant dev.Valid() && next == old(next) && todo <= eps.Keys == old(eps).Keys
        invariant forall a :: a in eps ==> eps[a] == if a in todo then old(eps)[a] else Shut(old(eps)[a])
        invariant forall a :: a in eps && a !in todo && old(eps)[a].inFlight.Some? ==>
                    old(eps)[a].inFlight.value in done
        invariant done <= InFlight(old(View()))
        invariant dev.View() == MarkUnlinked(before, done)
        decreases todo
      {
        var a :| a in todo;
        var e := eps[a];
        eps := eps[a := Shut(e)];
        todo := todo - {a};
        if e.inFlight.Some? {
          var landed: bool := *;
          MarkOneMore(before, done, e.inFlight.value, landed);
          var _ := dev.Unlink(e.inFlight.value, landed);
          done := done + {e.inFlight.value};
        }
      }
      assert done == InFlight(old(View()));
    }
  }
}
