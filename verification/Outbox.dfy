/** Handing a reply to the writer (crates/usbfwd-server/src/session.rs, `post`). */
module Outbox {
  datatype TrySend = Sent | Full | Disconnected

  /** What one attempt meets: the queue's answer, and the stop flag read after it. */
  datatype Attempt = Attempt(answer: TrySend, stop: bool)

  /** The attempt that decides: the reply went, or nobody will take it any more. */
  predicate Decides(a: Attempt) {
    !a.answer.Full? || a.stop
  }

  /**
    * A blocked `post` waits only as long as the queue is full and the session still running;
    * `limit` is any attempt by which the wind-down has raised the flag.
    */
  method Post(world: nat -> Attempt, ghost limit: nat) returns (sent: bool, attempts: nat)
    requires world(limit).stop
    ensures attempts <= limit && Decides(world(attempts))
    ensures forall i: nat :: i < attempts ==> !Decides(world(i))
    ensures sent <==> world(attempts).answer.Sent?
  {
    var i: nat := 0;
    while true
      invariant i <= limit && forall k: nat :: k < i ==> !Decides(world(k))
      decreases limit - i
    {
      match world(i).answer {
        case Sent => return true, i;
        case Disconnected => return false, i;
        case Full =>
          if world(i).stop {
            return false, i;
          }
      }
      i := i + 1;
    }
  }
}
