/** What one event leaves as it was: history is never rewritten, and remembered transfers stay settled. */
module History {
  import opened Outcomes
  import opened Json
  import opened Split
  import opened Ordered
  import opened Settlement
  import opened Packets
  import opened Receiving
  import opened ReceiverSafety
  import opened Sending
  import opened Protocol

  /** Nothing that was sent, concluded, put on the wire or delivered is undone. */
  ghost predicate Continues(e: Endpoint, e': Endpoint) {
    && Follows(e.sender, e'.sender)
    && e.wire <= e'.wire
    && e.receiver.delivered <= e'.receiver.delivered
    && e.now <= e'.now
  }

  lemma {:induction false} ContinuesIsTransitive(a: Endpoint, b: Endpoint, d: Endpoint)
    requires Continues(a, b) && Continues(b, d)
    ensures Continues(a, d)
  {
  }

  /** The transfer, settled in `e`, is not delivered again, and if it had failed it is not acknowledged either. */
  ghost predicate QuietAbout(e: Endpoint, e': Endpoint, t: Tid)
    requires t in e.receiver.settled.vals
  {
    && e.receiver.delivered <= e'.receiver.delivered
    && (forall i :: |e.receiver.delivered| <= i < |e'.receiver.delivered| ==> e'.receiver.delivered[i].tid != t)
    && (AckPacket(t) in e'.wire && AckPacket(t) !in e.wire ==> e.receiver.settled.vals[t].ok)
    && (t in e'.receiver.settled.vals && e'.receiver.settled.vals[t].ok ==> e.receiver.settled.vals[t].ok)
  }

  ghost predicate Carries(e: Endpoint, e': Endpoint) {
    Continues(e, e') && forall t :: t in e.receiver.settled.vals ==> QuietAbout(e, e', t)
  }

  lemma {:induction false} SenderStepCarries(e: Endpoint, s': Sender, out: seq<Packet>)
    requires Follows(e.sender, s') && Speaks(s', out)
    ensures Carries(e, e.(sender := s', wire := Emit(e.wire, out)))
  {
  }

  lemma {:induction false} SilentStepCarries(e: Endpoint, s': Sender)
    requires Follows(e.sender, s')
    ensures Carries(e, e.(sender := s'))
  {
  }

  lemma {:induction false} AttemptFollows(s: Sender, c: Config, now: int, open: bool, t: Tid)
    requires Orderly(s, c, now)
    ensures var (s', out) := ResendTick(s, c, now, open, t); Follows(s, s') && Speaks(s', out)
  {
    ResendTickKeepsOrder(s, c, now, open, t);
  }

  lemma {:induction false} ResendCarries(e: Endpoint, c: Config, t: Tid)
    requires Orderly(e.sender, c, e.now)
    ensures Carries(e, ResendAt(e, c, t))
  {
    var step := ResendTick(e.sender, c, e.now, e.open, t);
    AttemptFollows(e.sender, c, e.now, e.open, t);
    SenderStepCarries(e, step.0, step.1);
  }

  lemma {:induction false} DetachCarries(e: Endpoint, c: Config)
    requires Orderly(e.sender, c, e.now)
    ensures Carries(e, Next(e, c, Detach))
  {
    DetachKeepsOrder(e.sender, c, e.now);
  }

  lemma {:induction false} SendCarries(e: Endpoint, c: Config, t: Tid, u: Unit)
    requires Orderly(e.sender, c, e.now) && t !in e.sender.sent
    ensures Carries(e, SendAt(e, c, t, u))
  {
    var step := Send(e.sender, c, e.now, e.open, t, u);
    SendKeepsOrder(e.sender, c, e.now, e.open, t, u);
    SenderStepCarries(e, step.0, step.1);
  }

  lemma {:induction false} SendValueCarries(e: Endpoint, c: Config, t: Tid, data: Json, o: Options, ids: ChunkIds)
    requires Orderly(e.sender, c, e.now) && t !in e.sender.sent
    ensures Carries(e, Next(e, c, SendValue(t, data, o, ids)))
  {
    match SplitJson(data, o, ids) {
      case Failure(_) =>
      case Success(packed) =>
        SendCarries(e, c, t, Unit(data, packed));
    }
  }

  lemma {:induction false} ReceptionCarries(e: Endpoint, r': Receiver, out: seq<Packet>)
    requires AllKeptQuiet(e.receiver, r', out)
    ensures Carries(e, e.(receiver := r', wire := Emit(e.wire, out)))
  {
    var e' := e.(receiver := r', wire := Emit(e.wire, out));
    forall t | t in e.receiver.settled.vals ensures QuietAbout(e, e', t) {
      assert KeepsQuiet(e.receiver, r', out, t);
    }
  }

  lemma {:induction false} DataCarries(e: Endpoint, c: Config, peer: Endpoint, pc: Config, p: Packet)
    requires Good(e, c, peer, pc) && MayArrive(p, peer)
    requires e.attached && WellShaped(p) && !p.AckPacket? && !p.NackPacket?
    ensures Carries(e, ArriveAt(e, c, p))
  {
    var (r', out) := Receive(e.receiver, c, e.now, p);
    assert AllKeptQuiet(e.receiver, r', out) by {
      ArrivalIsHonest(e, c, peer, pc, p);
      ReceiveKeepsQuiet(e.receiver, c, e.now, p, peer.sender.sent, peer.sender.gaveUp);
    }
    ReceptionCarries(e, r', out);
    SweepCarries(e, e.(receiver := r', wire := Emit(e.wire, out)));
  }

  lemma {:induction false} SweepCarries(e: Endpoint, e': Endpoint)
    requires Carries(e, e') && e'.now == e.now
    ensures Carries(e, e'.(sender := SweepSender(e'.sender, e.now)))
  {
    var swept := e'.(sender := SweepSender(e'.sender, e.now));
    forall t | t in e.receiver.settled.vals ensures QuietAbout(e, swept, t) {
      assert QuietAbout(e, e', t);
    }
  }

  lemma {:induction false} AckCarries(e: Endpoint, c: Config, t: Tid)
    requires Orderly(e.sender, c, e.now)
    ensures Carries(e, e.(sender := HandleAck(e.sender, c, e.now, t)))
  {
    AckKeepsOrder(e.sender, c, e.now, t);
    SilentStepCarries(e, HandleAck(e.sender, c, e.now, t));
  }

  lemma {:induction false} NackCarries(e: Endpoint, c: Config, p: Packet)
    requires Orderly(e.sender, c, e.now) && p.NackPacket?
    ensures Carries(e, e.(wire := Emit(e.wire, HandleNack(e.sender, p))))
  {
    NackSpeaks(e.sender, c, e.now, p);
    SenderStepCarries(e, e.sender, HandleNack(e.sender, p));
  }

  lemma {:induction false} ArriveCarries(e: Endpoint, c: Config, peer: Endpoint, pc: Config, p: Packet)
    requires Good(e, c, peer, pc) && MayArrive(p, peer)
    ensures Carries(e, ArriveAt(e, c, p))
  {
    if e.attached && WellShaped(p) {
      match p {
        case AckPacket(t) => AckCarries(e, c, t);
        case NackPacket(_, _, _, _) => NackCarries(e, c, p);
        case _ => DataCarries(e, c, peer, pc, p);
      }
    }
  }

  lemma {:induction false} NackTimerCarries(e: Endpoint, t: Tid)
    ensures Carries(e, NackAt(e, t))
  {
    FireNackIsQuiet(e.receiver, t);
  }

  lemma {:induction false} CleanUpCarries(e: Endpoint, c: Config, peer: Endpoint, pc: Config)
    requires Good(e, c, peer, pc)
    ensures Carries(e, Next(e, c, CleanUp))
  {
    var r' := Cleanup(e.receiver, c, e.now);
    assert AllKeptQuiet(e.receiver, r', []) by {
      CleanupKeepsQuiet(e.receiver, c, e.now, peer.sender.sent, peer.sender.gaveUp);
    }
    EmitNothing(e.wire);
    ReceptionCarries(e, r', []);
    SweepCarries(e, e.(receiver := r'));
  }

  /** The events of the sending half. */
  lemma {:induction false} SendingCarries(e: Endpoint, c: Config, peer: Endpoint, pc: Config, ev: Event)
    requires Good(e, c, peer, pc) && Enabled(e, peer, ev)
    requires ev.SendValue? || ev.Resend? || ev.Detach?
    ensures Carries(e, Next(e, c, ev))
  {
    match ev
    case SendValue(t, data, o, ids) => SendValueCarries(e, c, t, data, o, ids);
    case Resend(t) => ResendCarries(e, c, t);
    case Detach => DetachCarries(e, c);
  }

  /** The events of the receiving half. */
  lemma {:induction false} ReceivingCarries(e: Endpoint, c: Config, peer: Endpoint, pc: Config, ev: Event)
    requires Good(e, c, peer, pc) && Enabled(e, peer, ev)
    requires ev.Arrive? || ev.NackTimer? || ev.CleanUp?
    ensures Carries(e, Next(e, c, ev))
  {
    match ev
    case Arrive(p) => ArriveCarries(e, c, peer, pc, p);
    case NackTimer(t) => NackTimerCarries(e, t);
    case CleanUp => CleanUpCarries(e, c, peer, pc);
  }

  /** No event rewrites history, or stirs a transfer that is remembered as settled. */
  lemma {:induction false} NextCarries(e: Endpoint, c: Config, peer: Endpoint, pc: Config, ev: Event)
    requires Good(e, c, peer, pc) && Enabled(e, peer, ev)
    ensures Carries(e, Next(e, c, ev))
  {
    if ev.SendValue? || ev.Resend? || ev.Detach? {
      SendingCarries(e, c, peer, pc, ev);
    } else if ev.Arrive? || ev.NackTimer? || ev.CleanUp? {
      ReceivingCarries(e, c, peer, pc, ev);
    }
  }
}
