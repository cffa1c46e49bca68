/** The transport as an object: its methods update its fields, each exactly as one event of the protocol prescribes. */
module JsonTransport {
  import opened Outcomes
  import opened Text
  import opened Json
  import opened Split
  import opened Ordered
  import opened Settlement
  import opened Deliveries
  import opened Packets
  import Receiving
  import Sending
  import opened Protocol
  import opened Transport

  class JSONTransport {
    const c: Config
    var attached: bool
    var states: JsMap<Tid, Receiving.Partial>
    var nackTimers: set<Tid>
    var settledReceived: Memory
    var pendingSend: JsMap<Tid, Sending.Pending>
    var settledSend: Memory

    // what listeners, callers and the network have seen
    ghost var delivered: seq<Delivery>
    ghost var forgotten: seq<Drop>
    ghost var sent: Sent
    ghost var outcomes: seq<Sending.Outcome>
    ghost var gaveUp: set<Tid>
    ghost var tries: map<Tid, nat>
    ghost var wire: set<Packet>

    ghost predicate Valid()
      reads `states, `settledReceived, `pendingSend, `settledSend
    {
      Ordered.Valid(states) && Ordered.Valid(settledReceived) && Ordered.Valid(pendingSend) && Ordered.Valid(settledSend)
    }

    ghost function Incoming(): Receiving.Receiver
      reads `states, `nackTimers, `settledReceived, `delivered, `forgotten
    {
      Receiving.Receiver(states, nackTimers, settledReceived, delivered, forgotten)
    }

    ghost function Outgoing(): Sending.Sender
      reads `pendingSend, `settledSend, `sent, `outcomes, `gaveUp, `tries
    {
      Sending.Sender(pendingSend, settledSend, sent, outcomes, gaveUp, tries)
    }

    /** The protocol state of this object, at this time, over a network in this condition. */
    ghost function State(now: int, open: bool): Endpoint
      reads this
    {
      Endpoint(now, open, attached, Outgoing(), Incoming(), wire)
    }

    constructor (config: Config)
      ensures c == config && Valid()
      ensures forall now, open :: Fresh(State(now, open))
    {
      c := config;
      attached := true;
      states, nackTimers, settledReceived, delivered, forgotten := Empty(), {}, Empty(), [], [];
      pendingSend, settledSend, sent, outcomes, gaveUp, tries := Empty(), Empty(), map[], [], {}, map[];
      wire := {};
    }

    /** Puts packets on the network, one after another. */
    method NetworkSend(packets: seq<Packet>)
      modifies `wire
      ensures wire == Emit(old(wire), packets)
    {
      for i := 0 to |packets|
        invariant wire == Emit(old(wire), packets[..i])
      {
        assert packets[..i + 1] == packets[..i] + [packets[i]];
        wire := wire + {packets[i]};
      }
      assert packets[..|packets|] == packets;
    }

    // ---- settling --------------------------------------------------------------------------------

    method SettleReceived(t: Tid, ok: bool, now: int)
      requires Valid()
      modifies `settledReceived, `forgotten
      ensures Valid() && Incoming() == Receiving.SettleReceived(old(Incoming()), c, now, t, ok)
    {
      var put := Put(settledReceived, t, NewEntry(ok, now, c.limits));
      PutIsValid(settledReceived, t, NewEntry(ok, now, c.limits));
      var swept := SweepSettledMapSize(put, c.limits, now);
      settledReceived := swept;
      forgotten := forgotten + [Drop(put, swept, now)];
    }

    method RememberSend(t: Tid, ok: bool, now: int)
      requires Valid()
      modifies `settledSend
      ensures Valid() && Outgoing() == old(Outgoing()).(settled := Settle(old(settledSend), t, ok, now, c.limits))
    {
      PutIsValid(settledSend, t, NewEntry(ok, now, c.limits));
      settledSend := SweepSettledMapSize(Put(settledSend, t, NewEntry(ok, now, c.limits)), c.limits, now);
    }

    /** The send is no longer pending; its promise has been resolved or rejected. */
    method EndSend(t: Tid, ok: bool)
      requires Valid()
      modifies `pendingSend, `outcomes, `gaveUp
      ensures Valid() && Outgoing() == Sending.EndSend(old(Outgoing()), t, ok)
    {
      DeleteIsValid(pendingSend, t);
      pendingSend := Delete(pendingSend, t);
      outcomes := outcomes + [Sending.Outcome(t, ok)];
      if !ok {
        gaveUp := gaveUp + {t};
      }
    }

    /** Ends a pending send and remembers how it ended. */
    method SettleSend(t: Tid, ok: bool, now: int)
      requires Valid()
      modifies `pendingSend, `settledSend, `outcomes, `gaveUp
      ensures Valid() && Outgoing() == Sending.Conclude(old(Outgoing()), c, now, t, ok)
    {
      EndSend(t, ok);
      RememberSend(t, ok, now);
    }

    /** Drops a partial transfer and settles it as failed. */
    method Abandon(t: Tid, now: int)
      requires Valid()
      modifies `states, `nackTimers, `settledReceived, `forgotten
      ensures Valid() && Incoming() == Receiving.Abandon(old(Incoming()), c, now, t)
    {
      DeleteIsValid(states, t);
      states := Delete(states, t);
      nackTimers := nackTimers - {t};
      SettleReceived(t, false, now);
    }

    method SweepSettledMaps(now: int)
      requires Valid()
      modifies `settledReceived, `forgotten, `settledSend
      ensures Valid()
      ensures Incoming() == Receiving.SweepSettled(old(Incoming()), now)
      ensures Outgoing() == Sending.SweepSender(old(Outgoing()), now)
    {
      DropExpiredIsValid(settledSend, settledSend.order, now);
      settledSend := SweepSettledMapTtl(settledSend, now);
      DropExpiredIsValid(settledReceived, settledReceived.order, now);
      var swept := SweepSettledMapTtl(settledReceived, now);
      forgotten := forgotten + [Drop(settledReceived, swept, now)];
      settledReceived := swept;
    }

    /** Abandons the partial transfers that have waited too long. */
    method ExpirePartials(now: int)
      requires Valid()
      modifies `states, `nackTimers, `settledReceived, `forgotten
      ensures Valid()
      ensures Incoming() == Receiving.ExpirePartials(old(Incoming()), c, now, old(states).order)
    {
      var tids := states.order;
      for i := 0 to |tids|
        invariant Valid()
        invariant Receiving.ExpirePartials(old(Incoming()), c, now, tids) == Receiving.ExpirePartials(Incoming(), c, now, tids[i..])
      {
        assert tids[i..][1..] == tids[i + 1..];
        if tids[i] in states.vals && Receiving.PartialExpired(states.vals[tids[i]], c, now) {
          Abandon(tids[i], now);
        }
      }
      assert tids[|tids|..] == [];
    }

    method Cleanup(now: int)
      requires Valid()
      modifies `states, `nackTimers, `settledReceived, `forgotten, `settledSend
      ensures Valid()
      ensures Incoming() == Receiving.Cleanup(old(Incoming()), c, now)
      ensures Outgoing() == Sending.SweepSender(old(Outgoing()), now)
    {
      SweepSettledMaps(now);
      if c.partialTtlMs > 0 {
        ExpirePartials(now);
      }
    }

    // ---- receiving -------------------------------------------------------------------------------

    method FindOrCreate(t: Tid, now: int)
      requires Valid()
      modifies `states, `nackTimers
      ensures Valid() && t in states.vals
      ensures Incoming() == Receiving.FindOrCreate(old(Incoming()), now, t)
    {
      var s := if t in states.vals then states.vals[t].(updatedAt := now) else Receiving.Partial(None, false, now, map[]);
      PutIsValid(states, t, s);
      states := Put(states, t, s);
      nackTimers := nackTimers + {t};
    }

    method Store(t: Tid, s: Receiving.Partial)
      requires Valid()
      modifies `states
      ensures Valid() && Incoming() == old(Incoming()).(states := Put(old(states), t, s))
    {
      PutIsValid(states, t, s);
      states := Put(states, t, s);
    }

    /** Takes a packet into the partial transfer it belongs to, and says what that transfer now yields. */
    method TakeIn(p: Packet, now: int) returns (yielded: Option<Json>)
      requires Valid() && IsData(p)
      modifies `states, `nackTimers, `settledReceived, `forgotten, `settledSend
      ensures Valid()
      ensures (Incoming(), yielded) == Receiving.TakeIn(old(Incoming()), c, now, p)
      ensures Outgoing() == Sending.SweepSender(old(Outgoing()), now)
    {
      Cleanup(now);
      FindOrCreate(p.tid, now);
      var s, goOn := Accept(states.vals[p.tid], p, now);
      Store(p.tid, s);
      if !goOn {
        return None;
      }
      yielded := TryAssemble(s);
    }

    /** Hands a value to the listeners, forgets its partial transfer, and settles it. */
    method Deliver(t: Tid, v: Json, now: int)
      requires Valid()
      modifies `states, `nackTimers, `settledReceived, `forgotten, `delivered
      ensures Valid() && Incoming() == Receiving.Deliver(old(Incoming()), c, now, t, v)
    {
      DeleteIsValid(states, t);
      states := Delete(states, t);
      delivered := delivered + [Delivery(t, v, now)];
      nackTimers := nackTimers - {t};
      SettleReceived(t, true, now);
    }

    /** Delivers and acknowledges what a partial transfer yielded, if anything. */
    method Finish(t: Tid, yielded: Option<Json>, now: int)
      requires Valid()
      modifies `states, `nackTimers, `settledReceived, `forgotten, `delivered, `wire
      ensures Valid()
      ensures Incoming() == Receiving.Finish(old(Incoming()), c, now, t, yielded).0
      ensures wire == Emit(old(wire), Receiving.Finish(old(Incoming()), c, now, t, yielded).1)
    {
      EmitNothing(wire);
      if yielded.Some? {
        Deliver(t, yielded.value, now);
        NetworkSend([AckPacket(t)]);
      }
    }

    /** A packet of a transfer that is not settled. */
    method ReceiveUnsettled(p: Packet, now: int)
      requires Valid() && IsData(p) && p.tid !in settledReceived.vals
      modifies `states, `nackTimers, `settledReceived, `forgotten, `delivered, `settledSend, `wire
      ensures Valid()
      ensures Incoming() == Receiving.ReceiveData(old(Incoming()), c, now, p).0
      ensures wire == Emit(old(wire), Receiving.ReceiveData(old(Incoming()), c, now, p).1)
      ensures Outgoing() == Sending.SweepSender(old(Outgoing()), now)
    {
      var yielded := TakeIn(p, now);
      Finish(p.tid, yielded, now);
    }

    method ReceiveData(p: Packet, now: int)
      requires Valid() && IsData(p)
      modifies `states, `nackTimers, `settledReceived, `forgotten, `delivered, `settledSend, `wire
      ensures Valid()
      ensures Incoming() == Receiving.ReceiveData(old(Incoming()), c, now, p).0
      ensures wire == Emit(old(wire), Receiving.ReceiveData(old(Incoming()), c, now, p).1)
      ensures Outgoing() == SenderAfterData(old(Outgoing()), old(Incoming()), now, p)
    {
      EmitNothing(wire);
      if p.tid !in settledReceived.vals {
        ReceiveUnsettled(p, now);
      } else if settledReceived.vals[p.tid].ok {
        NetworkSend([AckPacket(p.tid)]);
      }
    }

    // ---- sending ---------------------------------------------------------------------------------

    method FailSend(t: Tid, now: int)
      requires Valid()
      modifies `pendingSend, `settledSend, `outcomes, `gaveUp, `wire
      ensures Valid()
      ensures Outgoing() == Sending.FailSend(old(Outgoing()), c, now, t).0
      ensures wire == Emit(old(wire), Sending.FailSend(old(Outgoing()), c, now, t).1)
    {
      NetworkSend([ErrorPacket(t)]);
      SettleSend(t, false, now);
    }

    /** Counts an attempt and puts the whole transfer on the network. */
    method Transmit(t: Tid)
      requires Valid() && t in pendingSend.vals
      modifies `pendingSend, `tries, `wire
      ensures Valid()
      ensures Outgoing() == Sending.Transmit(old(Outgoing()), t)
      ensures wire == Emit(old(wire), Transmission(t, old(pendingSend).vals[t].packed))
    {
      var pending := pendingSend.vals[t];
      PutIsValid(pendingSend, t, pending.(attempts := pending.attempts + 1));
      pendingSend := Put(pendingSend, t, pending.(attempts := pending.attempts + 1));
      tries := tries[t := (if t in tries then tries[t] else 0) + 1];
      NetworkSend(Transmission(t, pending.packed));
    }

    method AttemptSend(t: Tid, now: int, open: bool)
      requires Valid() && t in pendingSend.vals
      modifies `pendingSend, `settledSend, `outcomes, `gaveUp, `tries, `wire
      ensures Valid()
      ensures Outgoing() == Sending.AttemptSend(old(Outgoing()), c, now, open, t).0
      ensures wire == Emit(old(wire), Sending.AttemptSend(old(Outgoing()), c, now, open, t).1)
    {
      EmitNothing(wire);
      if now - pendingSend.vals[t].startedAt >= c.deadlineMs {
        FailSend(t, now);
        return;
      }
      if !open {
        return;
      }
      Transmit(t);
      if pendingSend.vals[t].attempts >= c.maxAttempts {
        EmitTwice(old(wire), Transmission(t, old(pendingSend).vals[t].packed), [ErrorPacket(t)]);
        FailSend(t, now);
      }
    }

    method Register(t: Tid, u: Unit, now: int)
      requires Valid()
      modifies `pendingSend, `sent, `tries
      ensures Valid() && t in pendingSend.vals
      ensures Outgoing() == Sending.Register(old(Outgoing()), now, t, u)
    {
      PutIsValid(pendingSend, t, Sending.Pending(u.packed, 0, now));
      pendingSend := Put(pendingSend, t, Sending.Pending(u.packed, 0, now));
      sent := sent[t := u];
      tries := tries[t := 0];
    }

    method SendPacked(t: Tid, u: Unit, now: int, open: bool)
      requires Valid()
      modifies `pendingSend, `settledSend, `sent, `outcomes, `gaveUp, `tries, `wire
      ensures Valid()
      ensures Outgoing() == Sending.Send(old(Outgoing()), c, now, open, t, u).0
      ensures wire == Emit(old(wire), Sending.Send(old(Outgoing()), c, now, open, t, u).1)
    {
      Register(t, u, now);
      AttemptSend(t, now, open);
    }

    /** Registers a new transfer and makes the first attempt; splitting may throw before anything changes. */
    method SendReliable(data: Json, t: Tid, o: Options, ids: ChunkIds, now: int, open: bool) returns (r: Result<()>)
      requires Valid()
      modifies `pendingSend, `settledSend, `sent, `outcomes, `gaveUp, `tries, `wire
      ensures Valid()
      ensures State(now, open) == Next(old(State(now, open)), c, SendValue(t, data, o, ids))
      ensures r.Success? <==> SplitJson(data, o, ids).Success?
    {
      var packed :- SplitJson(data, o, ids);
      SendPacked(t, Unit(data, packed), now, open);
      return Success(());
    }

    method ResendTick(t: Tid, now: int, open: bool)
      requires Valid()
      modifies `pendingSend, `settledSend, `outcomes, `gaveUp, `tries, `wire
      ensures Valid()
      ensures State(now, open) == ResendAt(old(State(now, open)), c, t)
    {
      EmitNothing(wire);
      if t in pendingSend.vals {
        AttemptSend(t, now, open);
      }
    }

    method HandleAck(t: Tid, now: int)
      requires Valid()
      modifies `pendingSend, `settledSend, `outcomes, `gaveUp
      ensures Valid()
      ensures Outgoing() == Sending.HandleAck(old(Outgoing()), c, now, t)
    {
      if t in pendingSend.vals {
        SettleSend(t, true, now);
      }
    }

    method HandleNack(nack: Packet)
      requires Valid() && nack.NackPacket?
      modifies `wire
      ensures Valid()
      ensures wire == Emit(old(wire), Sending.HandleNack(Outgoing(), nack))
    {
      EmitNothing(wire);
      if nack.tid in pendingSend.vals {
        var out := CollectRepair(nack.tid, pendingSend.vals[nack.tid].packed, nack);
        NetworkSend(out);
      }
    }

    // ---- events ----------------------------------------------------------------------------------

    method AcceptPacket(p: Packet, now: int, open: bool)
      requires Valid()
      modifies this
      ensures Valid()
      ensures State(now, open) == ArriveAt(old(State(now, open)), c, p)
    {
      EmitNothing(wire);
      if !attached || !WellShaped(p) {
        return;
      }
      match p {
        case AckPacket(t) => HandleAck(t, now);
        case NackPacket(_, _, _, _) => HandleNack(p);
        case ErrorPacket(t) => Abandon(t, now);
        case _ => ReceiveData(p, now);
      }
    }

    method FireNack(t: Tid, now: int, open: bool)
      requires Valid() && t in nackTimers
      modifies `nackTimers, `wire
      ensures Valid()
      ensures State(now, open) == NackAt(old(State(now, open)), t)
    {
      EmitNothing(wire);
      nackTimers := nackTimers - {t};
      if t in states.vals {
        var nack := BuildNackPacket(t, states.vals[t]);
        NetworkSend([nack]);
      }
    }

    method CleanupTick(now: int, open: bool)
      requires Valid()
      modifies `states, `nackTimers, `settledReceived, `forgotten, `settledSend
      ensures Valid()
      ensures State(now, open) == CleanUpAt(old(State(now, open)), c)
    {
      Cleanup(now);
    }

    /** Fails every pending send. */
    method DetachReliable(now: int)
      requires Valid()
      modifies `pendingSend, `settledSend, `outcomes, `gaveUp
      ensures Valid() && Outgoing() == Sending.DetachSender(old(Outgoing()), c, now)
    {
      var tids := pendingSend.order;
      for i := 0 to |tids|
        invariant Valid()
        invariant Sending.ConcludeAll(old(Outgoing()), c, now, tids) == Sending.ConcludeAll(Outgoing(), c, now, tids[i..])
      {
        assert tids[i..][1..] == tids[i + 1..];
        SettleSend(tids[i], false, now);
      }
      assert tids[|tids|..] == [];
    }

    method Clear()
      requires Valid()
      modifies `states, `nackTimers, `attached
      ensures Valid() && !attached && Incoming() == Cleared(old(Incoming()))
    {
      nackTimers := {};
      states := Empty();
      attached := false;
    }

    method Detach(now: int, open: bool)
      requires Valid()
      modifies this
      ensures Valid()
      ensures State(now, open) == Next(old(State(now, open)), c, Protocol.Event.Detach)
    {
      DetachReliable(now);
      Clear();
    }
  }
}
