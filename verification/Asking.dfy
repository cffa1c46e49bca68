/** When a receiver asks: whatever of a transfer arrives arms its timer, and the timer puts a nack on the network. */
module Asking {
  import opened Outcomes
  import opened Json
  import opened Split
  import opened Ordered
  import opened Settlement
  import opened Deliveries
  import opened Packets
  import opened Receiving
  import opened ReceiverSafety
  import opened Sending
  import opened Protocol

  predicate IsWaiting(r: Receiver, t: Tid) { t in r.states.vals && t in r.nackTimers }

  lemma {:induction false} TakeInArms(r: Receiver, c: Config, now: int, p: Packet)
    ensures IsWaiting(TakeIn(r, c, now, p).0, p.tid) && TakeIn(r, c, now, p).0.delivered == r.delivered
  {
    CleanupDelivers(r, c, now);
  }

  lemma {:induction false} CleanupDelivers(r: Receiver, c: Config, now: int)
    ensures Cleanup(r, c, now).delivered == r.delivered
  {
    if c.partialTtlMs > 0 {
      ExpiryDelivers(SweepSettled(r, now), c, now, SweepSettled(r, now).states.order);
    }
  }

  lemma {:induction false} ExpiryDelivers(r: Receiver, c: Config, now: int, tids: seq<Tid>)
    ensures ExpirePartials(r, c, now, tids).delivered == r.delivered
    decreases tids
  {
    if tids != [] {
      if tids[0] in r.states.vals && PartialExpired(r.states.vals[tids[0]], c, now) {
        ExpiryDelivers(Abandon(r, c, now, tids[0]), c, now, tids[1..]);
      } else {
        ExpiryDelivers(r, c, now, tids[1..]);
      }
    }
  }

  /** Nothing more was delivered, and the transfer waits; or it was delivered, and nothing waits for it. */
  ghost predicate WaitsOrIsDelivered(r: Receiver, r': Receiver, t: Tid, now: int) {
    || (r'.delivered == r.delivered && IsWaiting(r', t))
    || (|r'.delivered| == |r.delivered| + 1 && r.delivered <= r'.delivered
        && r'.delivered[|r.delivered|].tid == t && r'.delivered[|r.delivered|].at == now
        && t !in r'.states.vals && t !in r'.nackTimers)
  }

  /** A well-shaped data packet of a transfer that is not remembered as settled: the transfer is delivered, or a nack timer
      is set for it. */
  lemma {:induction false} DataArmsTimer(e: Endpoint, c: Config, p: Packet)
    requires e.attached && WellShaped(p) && IsData(p) && p.tid !in e.receiver.settled.vals
    requires Valid(e.receiver.states)
    ensures WaitsOrIsDelivered(e.receiver, Next(e, c, Arrive(p)).receiver, p.tid, e.now)
  {
    var (stored, yielded) := TakeIn(e.receiver, c, e.now, p);
    TakeInArms(e.receiver, c, e.now, p);
  }

  /** When the timer of a transfer fires, a nack that says what it lacks is put on the network, and the timer is off. */
  lemma {:induction false} TimerAsks(e: Endpoint, c: Config, t: Tid)
    requires IsWaiting(e.receiver, t)
    ensures var e' := Next(e, c, NackTimer(t));
            var nack := BuildNack(t, e.receiver.states.vals[t]);
            && nack.NackPacket? && nack.tid == t && e'.wire == e.wire + {nack}
            && e' == e.(wire := e'.wire, receiver := e.receiver.(nackTimers := e.receiver.nackTimers - {t}))
  {
  }

  /** A timer that is not set does not fire; one whose transfer is gone says nothing. */
  lemma {:induction false} IdleTimer(e: Endpoint, c: Config, t: Tid)
    requires !IsWaiting(e.receiver, t)
    ensures var e' := Next(e, c, NackTimer(t));
            e' == e.(receiver := e.receiver.(nackTimers := e.receiver.nackTimers - {t}))
  {
    EmitNothing(e.wire);
    assert t !in e.receiver.nackTimers ==> e.receiver.nackTimers - {t} == e.receiver.nackTimers;
  }

  /** A detached endpoint has no partial transfers, no timers and nothing pending, and nothing that arrives changes it. */
  lemma {:induction false} DetachedIsDeaf(e: Endpoint, c: Config, p: Packet)
    requires Orderly(e.sender, c, e.now)
    ensures var e' := Next(e, c, Detach);
            && e'.receiver == e.receiver.(states := Empty(), nackTimers := {}) && e'.sender.pending.vals == map[]
            && Next(e', c, Arrive(p)) == e'
  {
    DetachKeepsOrder(e.sender, c, e.now);
  }

  /** A data packet of a transfer remembered as settled: acknowledged once more if it was delivered, and nothing else. */
  lemma {:induction false} SettledIsAcknowledgedAgain(e: Endpoint, c: Config, p: Packet)
    requires e.attached && WellShaped(p) && IsData(p) && p.tid in e.receiver.settled.vals
    ensures Next(e, c, Arrive(p)) == e.(wire := if e.receiver.settled.vals[p.tid].ok then e.wire + {AckPacket(p.tid)} else e.wire)
  {
    EmitNothing(e.wire);
  }
}
