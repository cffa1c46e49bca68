/** Two reliable endpoints joined by a network that may lose, repeat, reorder and damage packets. */
module Protocol {
  import opened Outcomes
  import opened Text
  import opened Json
  import opened Split
  import opened Ordered
  import opened Settlement
  import opened Deliveries
  import opened Packets
  import opened Receiving
  import opened ReceiverSafety
  import opened Sending

  /** `wire` is everything this side ever put on the network: any of it may still arrive, in any order, any number
      of times, or never. */
  datatype Endpoint = Endpoint(
    now: int,
    open: bool,
    attached: bool,
    sender: Sender,
    receiver: Receiver,
    wire: set<Packet>)

  datatype Event =
    | SendValue(tid: Tid, data: Json, options: Options, ids: ChunkIds)
    | Arrive(packet: Packet)
    | Resend(tid: Tid)
    | NackTimer(tid: Tid)
    | CleanUp
    | Detach
    | Tick(to: int)
    | SetOpen(open: bool)

  function Emit(wire: set<Packet>, out: seq<Packet>): set<Packet> { wire + set p | p in out }

  /** Some data packet of the transfer is on the wire. */
  predicate IsOnWire(wire: set<Packet>, t: Tid) { exists p :: p in wire && IsData(p) && p.tid == t }

  /** What the network may hand over: something the peer sent, or a damaged chunk of a transfer it transmitted. */
  predicate MayArrive(p: Packet, peer: Endpoint) {
    p in peer.wire || (p.ChunkPacket? && !p.intact && IsOnWire(peer.wire, p.tid))
  }

  /** Transfer ids are unique, chunk ids are distinct within a transfer, clocks do not go back. */
  ghost predicate Enabled(e: Endpoint, peer: Endpoint, ev: Event) {
    match ev
    case SendValue(t, data, o, ids) => t !in e.sender.sent && WellFormed(data) && data.Node? && Distinct(ids)
    case Arrive(p) => MayArrive(p, peer)
    case Tick(to) => e.now <= to
    case _ => true
  }

  function FreshSender(): Sender { Sender(Empty(), Empty(), map[], [], {}, map[]) }

  function FreshReceiver(): Receiver { Receiver(Empty(), {}, Empty(), [], []) }

  predicate Fresh(e: Endpoint) {
    e.attached && e.sender == FreshSender() && e.receiver == FreshReceiver() && e.wire == {}
  }

  /** Looking up the partial transfer of a packet also sweeps the sender's memory. */
  function SenderAfterData(s: Sender, r: Receiver, now: int, p: Packet): Sender {
    if IsData(p) && p.tid !in r.settled.vals then SweepSender(s, now) else s
  }

  function ArriveAt(e: Endpoint, c: Config, p: Packet): Endpoint {
    if !e.attached || !WellShaped(p) then e
    else if p.AckPacket? then e.(sender := HandleAck(e.sender, c, e.now, p.tid))
    else if p.NackPacket? then e.(wire := Emit(e.wire, HandleNack(e.sender, p)))
    else
      var (r, out) := Receive(e.receiver, c, e.now, p);
      e.(receiver := r, wire := Emit(e.wire, out), sender := SenderAfterData(e.sender, e.receiver, e.now, p))
  }

  function SendAt(e: Endpoint, c: Config, t: Tid, u: Unit): Endpoint {
    var step := Send(e.sender, c, e.now, e.open, t, u);
    e.(sender := step.0, wire := Emit(e.wire, step.1))
  }

  function ResendAt(e: Endpoint, c: Config, t: Tid): Endpoint {
    var step := ResendTick(e.sender, c, e.now, e.open, t);
    e.(sender := step.0, wire := Emit(e.wire, step.1))
  }

  function NackAt(e: Endpoint, t: Tid): Endpoint {
    var step := FireNack(e.receiver, t);
    e.(receiver := step.0, wire := Emit(e.wire, step.1))
  }

  function CleanUpAt(e: Endpoint, c: Config): Endpoint {
    e.(receiver := Cleanup(e.receiver, c, e.now), sender := SweepSender(e.sender, e.now))
  }

  function Next(e: Endpoint, c: Config, ev: Event): Endpoint {
    match ev
    case SendValue(t, data, o, ids) =>
      (match SplitJson(data, o, ids)
       case Failure(_) => e
       case Success(packed) => SendAt(e, c, t, Unit(data, packed)))
    case Arrive(p) => ArriveAt(e, c, p)
    case Resend(t) => ResendAt(e, c, t)
    case NackTimer(t) => if t in e.receiver.nackTimers then NackAt(e, t) else e
    case CleanUp => CleanUpAt(e, c)
    case Detach =>
      e.(attached := false, sender := DetachSender(e.sender, c, e.now),
         receiver := Cleared(e.receiver))
    case Tick(to) => e.(now := to)
    case SetOpen(open) => e.(open := open)
  }

  // ---- what one endpoint owes the other ----------------------------------------------------------

  /** Everything on the wire of `e` is honest, and its acknowledgements follow deliveries. */
  ghost predicate HonestWire(e: Endpoint) {
    forall p :: p in e.wire ==>
      Honest(p, e.sender.sent, e.sender.gaveUp) && (p.AckPacket? ==> WasDelivered(e.receiver, p.tid))
  }

  /** The state of one endpoint, seen on its own. */
  ghost predicate Sound(e: Endpoint, c: Config) {
    && Orderly(e.sender, c, e.now)
    && AllGenuine(e.sender.sent)
    && HonestWire(e)
  }

  /** `e` has delivered only values of `peer`, and `peer` counts as received only what `e` delivered. */
  ghost predicate Linked(e: Endpoint, c: Config, peer: Endpoint) {
    && Safe(e.receiver, c, e.now, peer.sender.sent, peer.sender.gaveUp)
    && (forall t :: HasOutcome(peer.sender.outcomes, t, true) ==> WasDelivered(e.receiver, t))
  }

  ghost predicate Good(e: Endpoint, c: Config, peer: Endpoint, pc: Config) {
    Sound(e, c) && Sound(peer, pc) && Linked(e, c, peer) && Linked(peer, pc, e)
  }

  lemma {:induction false} EmitNothing(wire: set<Packet>)
    ensures Emit(wire, []) == wire
  {
  }

  lemma {:induction false} EmitTwice(wire: set<Packet>, a: seq<Packet>, b: seq<Packet>)
    ensures Emit(Emit(wire, a), b) == Emit(wire, a + b)
  {
  }

  /** A step of the sending half: it says only what a sender may say, and resolves only what the peer acknowledged. */
  ghost predicate SenderStep(s: Sender, s': Sender, c: Config, now: int, heard: set<Packet>, out: seq<Packet>) {
    && Orderly(s', c, now) && AllGenuine(s'.sent) && Follows(s, s') && Speaks(s', out)
    && (forall t :: HasOutcome(s'.outcomes, t, true) ==> HasOutcome(s.outcomes, t, true) || AckPacket(t) in heard)
  }

  lemma {:induction false} SenderStepIsGood(e: Endpoint, s': Sender, c: Config, peer: Endpoint, pc: Config, out: seq<Packet>)
    requires Good(e, c, peer, pc) && SenderStep(e.sender, s', c, e.now, peer.wire, out)
    ensures Good(e.(sender := s', wire := Emit(e.wire, out)), c, peer, pc)
  {
    var e' := e.(sender := s', wire := Emit(e.wire, out));
    assert Linked(peer, pc, e') by {
      SafeGrows(peer.receiver, pc, peer.now, e.sender.sent, e.sender.gaveUp, peer.now, s'.sent, s'.gaveUp);
      forall t | HasOutcome(s'.outcomes, t, true) ensures WasDelivered(peer.receiver, t) {
        if AckPacket(t) in peer.wire {
          assert AckPacket(t).tid == t;
        }
      }
    }
    assert HonestWire(e') by {
      forall p | p in e'.wire
        ensures Honest(p, s'.sent, s'.gaveUp) && (p.AckPacket? ==> WasDelivered(e'.receiver, p.tid))
      {
        if p in out {
          var i :| 0 <= i < |out| && out[i] == p;
        }
      }
    }
  }

  lemma {:induction false} SilentStepIsGood(e: Endpoint, s': Sender, c: Config, peer: Endpoint, pc: Config)
    requires Good(e, c, peer, pc) && SenderStep(e.sender, s', c, e.now, peer.wire, [])
    ensures Good(e.(sender := s'), c, peer, pc)
  {
    EmitNothing(e.wire);
    SenderStepIsGood(e, s', c, peer, pc, []);
  }

  /** A step of the receiving half: it stays safe, and says only what a receiver may say. */
  ghost predicate ReceiverStep(r: Receiver, r': Receiver, c: Config, now: int, peer: Sender, out: seq<Packet>) {
    Safe(r', c, now, peer.sent, peer.gaveUp) && r.delivered <= r'.delivered && Replies(r', out)
  }

  lemma {:induction false} DeliveredStays(r: Receiver, r': Receiver, t: Tid)
    requires r.delivered <= r'.delivered && WasDelivered(r, t)
    ensures WasDelivered(r', t)
  {
    var i :| 0 <= i < |r.delivered| && r.delivered[i].tid == t;
    assert r'.delivered[i] == r.delivered[i];
  }

  lemma {:induction false} ReceiverStepIsGood(e: Endpoint, r': Receiver, c: Config, peer: Endpoint, pc: Config, out: seq<Packet>)
    requires Good(e, c, peer, pc) && ReceiverStep(e.receiver, r', c, e.now, peer.sender, out)
    ensures Good(e.(receiver := r', wire := Emit(e.wire, out)), c, peer, pc)
  {
    var e' := e.(receiver := r', wire := Emit(e.wire, out));
    assert Linked(e', c, peer) by {
      forall t | HasOutcome(peer.sender.outcomes, t, true) ensures WasDelivered(r', t) {
        DeliveredStays(e.receiver, r', t);
      }
    }
    assert HonestWire(e') by {
      forall p | p in e'.wire
        ensures Honest(p, e.sender.sent, e.sender.gaveUp) && (p.AckPacket? ==> WasDelivered(r', p.tid))
      {
        if p in out {
          var i :| 0 <= i < |out| && out[i] == p;
        } else if p.AckPacket? {
          DeliveredStays(e.receiver, r', p.tid);
        }
      }
    }
  }

  // ---- every event -------------------------------------------------------------------------------

  lemma {:induction false} SendIsAStep(s: Sender, c: Config, now: int, open: bool, t: Tid, u: Unit, heard: set<Packet>)
    requires Orderly(s, c, now) && AllGenuine(s.sent) && t !in s.sent && Genuine(u.packed, u.data)
    ensures var step := Send(s, c, now, open, t, u); SenderStep(s, step.0, c, now, heard, step.1)
  {
    SendKeepsOrder(s, c, now, open, t, u);
  }

  lemma {:induction false} SendIsGood(e: Endpoint, c: Config, peer: Endpoint, pc: Config, t: Tid, u: Unit)
    requires Good(e, c, peer, pc) && t !in e.sender.sent && Genuine(u.packed, u.data)
    ensures Good(SendAt(e, c, t, u), c, peer, pc)
  {
    var step := Send(e.sender, c, e.now, e.open, t, u);
    SendIsAStep(e.sender, c, e.now, e.open, t, u, peer.wire);
    SenderStepIsGood(e, step.0, c, peer, pc, step.1);
  }

  lemma {:induction false} SendValueIsGood(e: Endpoint, c: Config, peer: Endpoint, pc: Config, t: Tid, data: Json, o: Options, ids: ChunkIds)
    requires Good(e, c, peer, pc) && Enabled(e, peer, SendValue(t, data, o, ids))
    ensures Good(Next(e, c, SendValue(t, data, o, ids)), c, peer, pc)
  {
    match SplitJson(data, o, ids) {
      case Failure(_) =>
      case Success(packed) =>
        SplitIsGenuine(data, o, ids, packed);
        SendIsGood(e, c, peer, pc, t, Unit(data, packed));
    }
  }

  lemma {:induction false} ResendIsGood(e: Endpoint, c: Config, peer: Endpoint, pc: Config, t: Tid)
    requires Good(e, c, peer, pc)
    ensures Good(ResendAt(e, c, t), c, peer, pc)
  {
    var step := ResendTick(e.sender, c, e.now, e.open, t);
    ResendTickKeepsOrder(e.sender, c, e.now, e.open, t);
    SenderStepIsGood(e, step.0, c, peer, pc, step.1);
  }

  lemma {:induction false} SweepIsGood(e: Endpoint, c: Config, peer: Endpoint, pc: Config)
    requires Good(e, c, peer, pc)
    ensures Good(e.(sender := SweepSender(e.sender, e.now)), c, peer, pc)
  {
    SweepKeepsOrder(e.sender, c, e.now);
    SilentStepIsGood(e, SweepSender(e.sender, e.now), c, peer, pc);
  }

  lemma {:induction false} ArrivalIsHonest(e: Endpoint, c: Config, peer: Endpoint, pc: Config, p: Packet)
    requires Good(e, c, peer, pc) && MayArrive(p, peer)
    ensures Honest(p, peer.sender.sent, peer.sender.gaveUp)
  {
  }

  lemma {:induction false} ReplyIsGood(e: Endpoint, c: Config, peer: Endpoint, pc: Config, p: Packet, r: Receiver, out: seq<Packet>)
    requires Good(e, c, peer, pc) && MayArrive(p, peer)
    requires (r, out) == Receive(e.receiver, c, e.now, p)
    ensures Good(e.(receiver := r, wire := Emit(e.wire, out)), c, peer, pc)
  {
    assert ReceiverStep(e.receiver, r, c, e.now, peer.sender, out) by {
      ArrivalIsHonest(e, c, peer, pc, p);
      ReceiveReplies(e.receiver, c, e.now, p, peer.sender.sent, peer.sender.gaveUp);
    }
    ReceiverStepIsGood(e, r, c, peer, pc, out);
  }

  lemma {:induction false} AckIsGood(e: Endpoint, c: Config, peer: Endpoint, pc: Config, t: Tid)
    requires Good(e, c, peer, pc) && AckPacket(t) in peer.wire
    ensures Good(e.(sender := HandleAck(e.sender, c, e.now, t)), c, peer, pc)
  {
    AckKeepsOrder(e.sender, c, e.now, t);
    SilentStepIsGood(e, HandleAck(e.sender, c, e.now, t), c, peer, pc);
  }

  lemma {:induction false} NackIsGood(e: Endpoint, c: Config, peer: Endpoint, pc: Config, p: Packet)
    requires Good(e, c, peer, pc) && p.NackPacket?
    ensures Good(e.(wire := Emit(e.wire, HandleNack(e.sender, p))), c, peer, pc)
  {
    NackSpeaks(e.sender, c, e.now, p);
    SenderStepIsGood(e, e.sender, c, peer, pc, HandleNack(e.sender, p));
  }

  lemma {:induction false} DataIsGood(e: Endpoint, c: Config, peer: Endpoint, pc: Config, p: Packet)
    requires Good(e, c, peer, pc) && MayArrive(p, peer) && e.attached && WellShaped(p) && !p.AckPacket? && !p.NackPacket?
    ensures Good(ArriveAt(e, c, p), c, peer, pc)
  {
    var (r, out) := Receive(e.receiver, c, e.now, p);
    var received := e.(receiver := r, wire := Emit(e.wire, out));
    assert Good(received, c, peer, pc) by { ReplyIsGood(e, c, peer, pc, p, r, out); }
    assert Good(received.(sender := SweepSender(e.sender, e.now)), c, peer, pc) by { SweepIsGood(received, c, peer, pc); }
  }

  lemma {:induction false} ArriveIsGood(e: Endpoint, c: Config, peer: Endpoint, pc: Config, p: Packet)
    requires Good(e, c, peer, pc) && MayArrive(p, peer)
    ensures Good(ArriveAt(e, c, p), c, peer, pc)
  {
    if e.attached && WellShaped(p) {
      match p {
        case AckPacket(t) => AckIsGood(e, c, peer, pc, t);
        case NackPacket(_, _, _, _) => NackIsGood(e, c, peer, pc, p);
        case _ => DataIsGood(e, c, peer, pc, p);
      }
    }
  }

  lemma {:induction false} FireNackIsQuiet(r: Receiver, t: Tid)
    ensures var (r', out) := FireNack(r, t); r' == r.(nackTimers := r'.nackTimers) && Replies(r', out)
  {
  }

  lemma {:induction false} NackTimerIsGood(e: Endpoint, c: Config, peer: Endpoint, pc: Config, t: Tid)
    requires Good(e, c, peer, pc)
    ensures Good(NackAt(e, t), c, peer, pc)
  {
    var step := FireNack(e.receiver, t);
    assert ReceiverStep(e.receiver, step.0, c, e.now, peer.sender, step.1) by {
      FireNackIsQuiet(e.receiver, t);
      TimersDoNotMatter(e.receiver, step.0, c, e.now, peer.sender.sent, peer.sender.gaveUp);
    }
    ReceiverStepIsGood(e, step.0, c, peer, pc, step.1);
  }

  lemma {:induction false} TimersDoNotMatter(r: Receiver, r': Receiver, c: Config, now: int, sent: Sent, gaveUp: set<Tid>)
    requires Safe(r, c, now, sent, gaveUp) && r' == r.(nackTimers := r'.nackTimers)
    ensures Safe(r', c, now, sent, gaveUp)
  {
  }

  /** Only the receiving half changes, silently. */
  lemma {:induction false} SilentReceptionIsGood(e: Endpoint, r': Receiver, c: Config, peer: Endpoint, pc: Config)
    requires Good(e, c, peer, pc)
    requires Safe(r', c, e.now, peer.sender.sent, peer.sender.gaveUp) && e.receiver.delivered <= r'.delivered
    ensures Good(e.(receiver := r'), c, peer, pc)
  {
    EmitNothing(e.wire);
    ReceiverStepIsGood(e, r', c, peer, pc, []);
  }

  lemma {:induction false} CleanUpIsGood(e: Endpoint, c: Config, peer: Endpoint, pc: Config)
    requires Good(e, c, peer, pc)
    ensures Good(Next(e, c, CleanUp), c, peer, pc)
  {
    CleanupIsSafe(e.receiver, c, e.now, peer.sender.sent, peer.sender.gaveUp);
    SilentReceptionIsGood(e, Cleanup(e.receiver, c, e.now), c, peer, pc);
    SweepIsGood(e.(receiver := Cleanup(e.receiver, c, e.now)), c, peer, pc);
  }

  function Cleared(r: Receiver): Receiver { r.(states := Empty(), nackTimers := {}) }

  lemma {:induction false} DetachIsGood(e: Endpoint, c: Config, peer: Endpoint, pc: Config)
    requires Good(e, c, peer, pc)
    ensures Good(Next(e, c, Detach), c, peer, pc)
  {
    DetachKeepsOrder(e.sender, c, e.now);
    SilentStepIsGood(e, DetachSender(e.sender, c, e.now), c, peer, pc);
    SilentReceptionIsGood(e.(sender := DetachSender(e.sender, c, e.now)), Cleared(e.receiver), c, peer, pc);
    AttachmentDoesNotMatter(e.(sender := DetachSender(e.sender, c, e.now), receiver := Cleared(e.receiver)), c, peer, pc);
  }

  lemma {:induction false} AttachmentDoesNotMatter(e: Endpoint, c: Config, peer: Endpoint, pc: Config)
    requires Good(e, c, peer, pc)
    ensures Good(e.(attached := false), c, peer, pc)
  {
  }

  lemma {:induction false} TickIsGood(e: Endpoint, c: Config, peer: Endpoint, pc: Config, to: int)
    requires Good(e, c, peer, pc) && e.now <= to
    ensures Good(Next(e, c, Tick(to)), c, peer, pc)
  {
    SafeGrows(e.receiver, c, e.now, peer.sender.sent, peer.sender.gaveUp, to, peer.sender.sent, peer.sender.gaveUp);
    LaterKeepsOrder(e.sender, c, e.now, to);
  }

  /** Every event at one endpoint keeps both endpoints good. */
  lemma {:induction false} NextIsGood(e: Endpoint, c: Config, peer: Endpoint, pc: Config, ev: Event)
    requires Good(e, c, peer, pc) && Enabled(e, peer, ev)
    ensures Good(Next(e, c, ev), c, peer, pc)
  {
    match ev
    case SendValue(t, data, o, ids) => SendValueIsGood(e, c, peer, pc, t, data, o, ids);
    case Arrive(p) => ArriveIsGood(e, c, peer, pc, p);
    case Resend(t) => ResendIsGood(e, c, peer, pc, t);
    case NackTimer(t) => NackTimerIsGood(e, c, peer, pc, t);
    case CleanUp => CleanUpIsGood(e, c, peer, pc);
    case Detach => DetachIsGood(e, c, peer, pc);
    case Tick(to) => TickIsGood(e, c, peer, pc, to);
    case SetOpen(_) =>
  }
}
