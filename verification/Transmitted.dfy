/** What reaches a receiver was transmitted: no transfer is known there before its sender put it on the network in full. */
module Transmitted {
  import opened Outcomes
  import opened Json
  import opened Split
  import opened Ordered
  import opened Settlement
  import opened Packets
  import opened Receiving
  import opened ReceiverSafety
  import opened Sending
  import opened Protocol
  import opened History
  import opened Runs

  /** The transfer has been transmitted in full at least once. */
  predicate WasTried(s: Sender, t: Tid) { t in s.tries && s.tries[t] > 0 }

  ghost predicate AllOnWire(wire: set<Packet>, t: Tid, packed: Packed) {
    forall p :: p in Transmission(t, packed) ==> p in wire
  }

  /** Data on the wire is of transfers that were tried, and these are there as a whole. */
  ghost predicate SendsWholes(s: Sender, wire: set<Packet>) {
    && (forall p :: p in wire && IsData(p) ==> WasTried(s, p.tid))
    && (forall t :: WasTried(s, t) ==> t in s.sent && AllOnWire(wire, t, s.sent[t].packed))
  }

  /** The receiver has, has delivered and asks for only what was tried. */
  ghost predicate KnowsTried(r: Receiver, wire: set<Packet>, peer: Sender) {
    && (forall t :: t in r.states.vals ==> WasTried(peer, t))
    && (forall i :: 0 <= i < |r.delivered| ==> WasTried(peer, r.delivered[i].tid))
    && (forall p :: p in wire && p.NackPacket? ==> WasTried(peer, p.tid))
  }

  ghost predicate TriesGrow(s: Sender, s': Sender) { forall t :: WasTried(s, t) ==> WasTried(s', t) }

  ghost predicate NoNacks(out: seq<Packet>) { forall i :: 0 <= i < |out| ==> !out[i].NackPacket? }

  ghost predicate Candid(e: Endpoint, peer: Endpoint) {
    && SendsWholes(e.sender, e.wire) && SendsWholes(peer.sender, peer.wire)
    && KnowsTried(e.receiver, e.wire, peer.sender) && KnowsTried(peer.receiver, peer.wire, e.sender)
  }

  // ---- the sending half ----------------------------------------------------------------------------

  /** A step of the sending half: what it says is said in full. */
  ghost predicate CandidStep(s: Sender, s': Sender, wire: set<Packet>, out: seq<Packet>) {
    SendsWholes(s', Emit(wire, out)) && TriesGrow(s, s') && NoNacks(out)
  }

  lemma {:induction false} CandidStepIsCandid(e: Endpoint, s': Sender, peer: Endpoint, out: seq<Packet>)
    requires Candid(e, peer) && CandidStep(e.sender, s', e.wire, out)
    ensures Candid(e.(sender := s', wire := Emit(e.wire, out)), peer)
  {
    assert KnowsTried(e.receiver, Emit(e.wire, out), peer.sender);
  }

  /** Nothing is tried, and nothing is said but errors. */
  lemma {:induction false} SilenceIsCandid(s: Sender, s': Sender, wire: set<Packet>, out: seq<Packet>)
    requires SendsWholes(s, wire) && s'.tries == s.tries && s'.sent == s.sent
    requires forall i :: 0 <= i < |out| ==> !IsData(out[i]) && !out[i].NackPacket?
    ensures CandidStep(s, s', wire, out)
  {
    forall t | WasTried(s', t) ensures t in s'.sent && AllOnWire(Emit(wire, out), t, s'.sent[t].packed) {
      assert WasTried(s, t);
    }
    forall p | p in Emit(wire, out) && IsData(p) ensures WasTried(s', p.tid) {
      assert p in wire;
    }
  }

  /** One full transmission. */
  lemma {:induction false} TransmissionIsCandid(s: Sender, s': Sender, wire: set<Packet>, out: seq<Packet>, t: Tid)
    requires SendsWholes(s, wire) && t in s.sent && s'.sent == s.sent
    requires WasTried(s', t) && forall u :: u != t ==> (WasTried(s', u) <==> WasTried(s, u))
    requires out == Transmission(t, s.sent[t].packed) || out == Transmission(t, s.sent[t].packed) + [ErrorPacket(t)]
    ensures CandidStep(s, s', wire, out)
  {
    var all := Transmission(t, s.sent[t].packed);
    TransmissionBelongs(t, s.sent[t].packed);
    assert forall i :: 0 <= i < |all| ==> all[i] in all;
    forall p | p in all ensures p in Emit(wire, out) {
      assert p in out;
    }
    forall u | WasTried(s', u) ensures u in s'.sent && AllOnWire(Emit(wire, out), u, s'.sent[u].packed) {
      assert u != t ==> WasTried(s, u);
    }
    forall p | p in Emit(wire, out) && IsData(p) ensures WasTried(s', p.tid) {
      assert p in wire || p in all;
    }
  }

  lemma {:induction false} AttemptIsCandid(s: Sender, c: Config, now: int, open: bool, t: Tid, wire: set<Packet>)
    requires SendsWholes(s, wire) && Counted(s, c) && t in s.pending.vals
    ensures var (s', out) := AttemptSend(s, c, now, open, t); CandidStep(s, s', wire, out)
  {
    var (s', out) := AttemptSend(s, c, now, open, t);
    PendingIsSent(s, c, t);
    if Overdue(s.pending.vals[t], c, now) || !open {
      SilenceIsCandid(s, s', wire, out);
    } else {
      AttemptTransmits(s, c, now, t);
      TransmissionIsCandid(s, s', wire, out, t);
    }
  }

  lemma {:induction false} AttemptTransmits(s: Sender, c: Config, now: int, t: Tid)
    requires t in s.pending.vals && t in s.sent && s.pending.vals[t].packed == s.sent[t].packed
    requires !Overdue(s.pending.vals[t], c, now)
    ensures var (s', out) := AttemptSend(s, c, now, true, t);
            && s'.sent == s.sent && WasTried(s', t) && (forall u :: u != t ==> (WasTried(s', u) <==> WasTried(s, u)))
            && var all := Transmission(t, s.sent[t].packed); out == all || out == all + [ErrorPacket(t)]
  {
  }

  lemma {:induction false} RegisterIsCandid(s: Sender, c: Config, now: int, t: Tid, u: Unit, wire: set<Packet>)
    requires SendsWholes(s, wire) && Counted(s, c) && t !in s.sent
    ensures SendsWholes(Register(s, now, t, u), wire) && TriesGrow(s, Register(s, now, t, u))
  {
    var s' := Register(s, now, t, u);
    assert t !in s.tries;
    forall p | p in wire && IsData(p) ensures WasTried(s', p.tid) {
      assert WasTried(s, p.tid) && p.tid != t;
    }
    forall x | WasTried(s', x) ensures x in s'.sent && AllOnWire(wire, x, s'.sent[x].packed) {
      assert WasTried(s, x);
    }
  }

  lemma {:induction false} SendIsCandid(e: Endpoint, c: Config, peer: Endpoint, t: Tid, u: Unit)
    requires Candid(e, peer) && Orderly(e.sender, c, e.now) && t !in e.sender.sent
    ensures Candid(SendAt(e, c, t, u), peer)
  {
    var registered := Register(e.sender, e.now, t, u);
    var step := Send(e.sender, c, e.now, e.open, t, u);
    RegisterIsCandid(e.sender, c, e.now, t, u, e.wire);
    RegisterKeepsOrder(e.sender, c, e.now, t, u);
    AttemptIsCandid(registered, c, e.now, e.open, t, e.wire);
    CandidStepIsCandid(e, step.0, peer, step.1);
  }

  lemma {:induction false} ResendIsCandid(e: Endpoint, c: Config, peer: Endpoint, t: Tid)
    requires Candid(e, peer) && Orderly(e.sender, c, e.now)
    ensures Candid(ResendAt(e, c, t), peer)
  {
    var step := ResendTick(e.sender, c, e.now, e.open, t);
    if t in e.sender.pending.vals {
      AttemptIsCandid(e.sender, c, e.now, e.open, t, e.wire);
    } else {
      SilenceIsCandid(e.sender, e.sender, e.wire, []);
    }
    CandidStepIsCandid(e, step.0, peer, step.1);
  }

  /** An answer to a nack repeats what was transmitted: the peer asks only for what it has heard of. */
  lemma {:induction false} NackIsCandid(e: Endpoint, c: Config, peer: Endpoint, p: Packet)
    requires Candid(e, peer) && Orderly(e.sender, c, e.now) && p.NackPacket? && p in peer.wire
    ensures Candid(e.(wire := Emit(e.wire, HandleNack(e.sender, p))), peer)
  {
    var out := HandleNack(e.sender, p);
    AnswerIsOwn(e.sender, p);
    RepeatIsCandid(e.sender, e.wire, out, p.tid);
    CandidStepIsCandid(e, e.sender, peer, out);
  }

  lemma {:induction false} AnswerIsOwn(s: Sender, p: Packet)
    requires p.NackPacket?
    ensures var out := HandleNack(s, p); forall i :: 0 <= i < |out| ==> out[i].tid == p.tid && !out[i].NackPacket?
  {
    if p.tid in s.pending.vals {
      ResendChunksAreOwn(p.tid, s.pending.vals[p.tid].packed, p.wanted);
    }
  }

  lemma {:induction false} RepeatIsCandid(s: Sender, wire: set<Packet>, out: seq<Packet>, t: Tid)
    requires SendsWholes(s, wire) && WasTried(s, t)
    requires forall i :: 0 <= i < |out| ==> out[i].tid == t && !out[i].NackPacket?
    ensures CandidStep(s, s, wire, out)
  {
    forall p | p in Emit(wire, out) && IsData(p) ensures WasTried(s, p.tid) {
      assert p in wire || p in out;
    }
    forall u | WasTried(s, u) ensures AllOnWire(Emit(wire, out), u, s.sent[u].packed) {
      assert AllOnWire(wire, u, s.sent[u].packed);
    }
  }

  /** Only what is pending, remembered or concluded changes. */
  lemma {:induction false} SameTriesIsCandid(e: Endpoint, s': Sender, peer: Endpoint)
    requires Candid(e, peer) && s'.tries == e.sender.tries && s'.sent == e.sender.sent
    ensures Candid(e.(sender := s'), peer)
  {
    SilenceIsCandid(e.sender, s', e.wire, []);
    CandidStepIsCandid(e, s', peer, []);
    EmitNothing(e.wire);
  }

  lemma {:induction false} ConcludeAllSameTries(s: Sender, c: Config, now: int, tids: seq<Tid>)
    ensures var s' := ConcludeAll(s, c, now, tids); s'.tries == s.tries && s'.sent == s.sent
    decreases tids
  {
    if tids != [] {
      ConcludeAllSameTries(Conclude(s, c, now, tids[0], false), c, now, tids[1..]);
    }
  }

  // ---- the receiving half --------------------------------------------------------------------------

  /** The receiver has heard of nothing new but `t`. */
  ghost predicate HearsOnly(r: Receiver, r': Receiver, t: Tid) {
    && (forall x :: x in r'.states.vals && x !in r.states.vals ==> x == t)
    && r.delivered <= r'.delivered
    && (forall i :: |r.delivered| <= i < |r'.delivered| ==> r'.delivered[i].tid == t)
  }

  lemma {:induction false} ExpiryHearsNothing(r: Receiver, c: Config, now: int, tids: seq<Tid>)
    ensures var r' := ExpirePartials(r, c, now, tids);
            r'.delivered == r.delivered && forall x :: x in r'.states.vals ==> x in r.states.vals
    decreases tids
  {
    if tids != [] {
      if tids[0] in r.states.vals && PartialExpired(r.states.vals[tids[0]], c, now) {
        ExpiryHearsNothing(Abandon(r, c, now, tids[0]), c, now, tids[1..]);
      } else {
        ExpiryHearsNothing(r, c, now, tids[1..]);
      }
    }
  }

  lemma {:induction false} CleanupHearsNothing(r: Receiver, c: Config, now: int)
    ensures var r' := Cleanup(r, c, now);
            r'.delivered == r.delivered && forall x :: x in r'.states.vals ==> x in r.states.vals
  {
    if c.partialTtlMs > 0 {
      ExpiryHearsNothing(SweepSettled(r, now), c, now, SweepSettled(r, now).states.order);
    }
  }

  lemma {:induction false} ReceiveHears(r: Receiver, c: Config, now: int, p: Packet)
    ensures HearsOnly(r, Receive(r, c, now, p).0, p.tid)
  {
    if IsData(p) && p.tid !in r.settled.vals {
      CleanupHearsNothing(r, c, now);
      var (stored, yielded) := TakeIn(r, c, now, p);
      assert HearsOnly(r, stored, p.tid);
      assert HearsOnly(r, Finish(stored, c, now, p.tid, yielded).0, p.tid);
    }
  }

  lemma {:induction false} HearingIsCandid(e: Endpoint, r': Receiver, peer: Endpoint, t: Tid, out: seq<Packet>)
    requires Candid(e, peer) && HearsOnly(e.receiver, r', t)
    requires (r'.delivered == e.receiver.delivered && forall x :: x in r'.states.vals ==> x in e.receiver.states.vals) || WasTried(peer.sender, t)
    requires forall i :: 0 <= i < |out| ==> out[i].AckPacket? || (out[i].NackPacket? && WasTried(peer.sender, out[i].tid))
    ensures Candid(e.(receiver := r', wire := Emit(e.wire, out)), peer)
  {
    assert SendsWholes(e.sender, Emit(e.wire, out)) by {
      forall t | WasTried(e.sender, t) ensures t in e.sender.sent && AllOnWire(Emit(e.wire, out), t, e.sender.sent[t].packed) {
        assert AllOnWire(e.wire, t, e.sender.sent[t].packed);
      }
      forall p | p in Emit(e.wire, out) && IsData(p) ensures WasTried(e.sender, p.tid) {
        assert p in e.wire || p in out;
      }
    }
    assert KnowsTried(r', Emit(e.wire, out), peer.sender) by {
      forall i | 0 <= i < |r'.delivered| ensures WasTried(peer.sender, r'.delivered[i].tid) {
        assert i < |e.receiver.delivered| ==> r'.delivered[i] == e.receiver.delivered[i];
      }
      forall p | p in Emit(e.wire, out) && p.NackPacket? ensures WasTried(peer.sender, p.tid) {
        assert p in e.wire || p in out;
      }
    }
  }

  lemma {:induction false} ArrivedWasTried(e: Endpoint, peer: Endpoint, p: Packet)
    requires Candid(e, peer) && MayArrive(p, peer) && IsData(p)
    ensures WasTried(peer.sender, p.tid)
  {
  }

  lemma {:induction false} DataIsCandid(e: Endpoint, c: Config, peer: Endpoint, p: Packet)
    requires Candid(e, peer) && MayArrive(p, peer) && e.attached && WellShaped(p) && !p.AckPacket? && !p.NackPacket?
    ensures Candid(ArriveAt(e, c, p), peer)
  {
    var (r, out) := Receive(e.receiver, c, e.now, p);
    ReplyIsCandid(e, c, peer, p, r, out);
    SameTriesIsCandid(e.(receiver := r, wire := Emit(e.wire, out)), SenderAfterData(e.sender, e.receiver, e.now, p), peer);
  }

  lemma {:induction false} ReplyIsCandid(e: Endpoint, c: Config, peer: Endpoint, p: Packet, r: Receiver, out: seq<Packet>)
    requires Candid(e, peer) && MayArrive(p, peer) && !p.AckPacket? && !p.NackPacket?
    requires (r, out) == Receive(e.receiver, c, e.now, p)
    ensures Candid(e.(receiver := r, wire := Emit(e.wire, out)), peer)
  {
    ReceiveHears(e.receiver, c, e.now, p);
    if IsData(p) {
      ArrivedWasTried(e, peer, p);
    }
    RepliesAreAcks(e.receiver, c, e.now, p);
    HearingIsCandid(e, r, peer, p.tid, out);
  }

  lemma {:induction false} RepliesAreAcks(r: Receiver, c: Config, now: int, p: Packet)
    ensures var out := Receive(r, c, now, p).1; forall i :: 0 <= i < |out| ==> out[i].AckPacket?
  {
  }

  lemma {:induction false} ControlIsCandid(e: Endpoint, c: Config, peer: Endpoint, p: Packet)
    requires Candid(e, peer) && Orderly(e.sender, c, e.now) && p in peer.wire && e.attached && WellShaped(p)
    requires p.AckPacket? || p.NackPacket?
    ensures Candid(ArriveAt(e, c, p), peer)
  {
    if p.AckPacket? {
      SameTriesIsCandid(e, HandleAck(e.sender, c, e.now, p.tid), peer);
    } else {
      NackIsCandid(e, c, peer, p);
    }
  }

  lemma {:induction false} ArriveIsCandid(e: Endpoint, c: Config, peer: Endpoint, p: Packet)
    requires Candid(e, peer) && Orderly(e.sender, c, e.now) && MayArrive(p, peer)
    ensures Candid(ArriveAt(e, c, p), peer)
  {
    if !e.attached || !WellShaped(p) {
      assert ArriveAt(e, c, p) == e;
    } else if p.AckPacket? || p.NackPacket? {
      ControlIsCandid(e, c, peer, p);
    } else {
      DataIsCandid(e, c, peer, p);
    }
  }

  /** Only partial transfers are dropped. */
  lemma {:induction false} ForgettingIsCandid(e: Endpoint, r': Receiver, peer: Endpoint, t: Tid)
    requires Candid(e, peer) && r'.delivered == e.receiver.delivered
    requires forall x :: x in r'.states.vals ==> x in e.receiver.states.vals
    ensures Candid(e.(receiver := r'), peer)
  {
    HearingIsCandid(e, r', peer, t, []);
    EmitNothing(e.wire);
  }

  lemma {:induction false} NackTimerIsCandid(e: Endpoint, peer: Endpoint, t: Tid)
    requires Candid(e, peer)
    ensures Candid(NackAt(e, t), peer)
  {
    var step := FireNack(e.receiver, t);
    HearingIsCandid(e, step.0, peer, t, step.1);
  }

  lemma {:induction false} CleanUpIsCandid(e: Endpoint, c: Config, peer: Endpoint)
    requires Candid(e, peer)
    ensures Candid(CleanUpAt(e, c), peer)
  {
    var r' := Cleanup(e.receiver, c, e.now);
    CleanupHearsNothing(e.receiver, c, e.now);
    ForgettingIsCandid(e, r', peer, []);
    SameTriesIsCandid(e.(receiver := r'), SweepSender(e.sender, e.now), peer);
  }

  lemma {:induction false} DetachIsCandid(e: Endpoint, c: Config, peer: Endpoint)
    requires Candid(e, peer)
    ensures Candid(Next(e, c, Detach), peer)
  {
    var detached := e.(sender := DetachSender(e.sender, c, e.now));
    ConcludeAllSameTries(e.sender, c, e.now, e.sender.pending.order);
    SameTriesIsCandid(e, detached.sender, peer);
    ForgettingIsCandid(detached, Cleared(e.receiver), peer, []);
  }

  lemma {:induction false} NextIsCandid(e: Endpoint, c: Config, peer: Endpoint, ev: Event)
    requires Candid(e, peer) && Orderly(e.sender, c, e.now) && Enabled(e, peer, ev)
    ensures Candid(Next(e, c, ev), peer)
  {
    match ev
    case SendValue(t, data, o, ids) =>
      if SplitJson(data, o, ids).Success? {
        SendIsCandid(e, c, peer, t, Unit(data, SplitJson(data, o, ids).value));
      }
    case Arrive(p) => ArriveIsCandid(e, c, peer, p);
    case Resend(t) => ResendIsCandid(e, c, peer, t);
    case NackTimer(t) => NackTimerIsCandid(e, peer, t);
    case CleanUp => CleanUpIsCandid(e, c, peer);
    case Detach => DetachIsCandid(e, c, peer);
    case _ =>
  }

  // ---- every run -----------------------------------------------------------------------------------

  ghost predicate CandidWorld(w: World) { forall side: Side :: Candid(w.At(side), w.At(side.Other())) }

  lemma {:induction false} CandidIsMutual(w: World, side: Side)
    requires Candid(w.At(side), w.At(side.Other()))
    ensures CandidWorld(w)
  {
    forall s: Side ensures Candid(w.At(s), w.At(s.Other())) {
      assert s == side || s == side.Other();
    }
  }

  lemma {:induction false} MoveIsCandid(run: Run, c: Configs, i: nat)
    requires IsRun(run, c) && i < |run.moves| && CandidWorld(run.worlds[i])
    ensures CandidWorld(run.worlds[i + 1])
  {
    var m := run.moves[i];
    var e := MoveIsNext(run, c, i, m.side, m.event);
    var peer := run.worlds[i].At(m.side.Other());
    assert Candid(e, peer);
    NextIsCandid(e, c.At(m.side), peer, m.event);
    OthersStandStill(run, c, i);
    CandidIsMutual(run.worlds[i + 1], m.side);
  }

  lemma {:induction false} OthersStandStill(run: Run, c: Configs, i: nat)
    requires IsRun(run, c) && i < |run.moves|
    ensures run.worlds[i + 1].At(run.moves[i].side.Other()) == run.worlds[i].At(run.moves[i].side.Other())
  {
    assert IsStep(run, c, i);
  }

  lemma {:induction false} RunIsCandid(run: Run, c: Configs, i: nat)
    requires IsRun(run, c) && i < |run.worlds|
    ensures CandidWorld(run.worlds[i])
  {
    if i > 0 {
      RunIsCandid(run, c, i - 1);
      MoveIsCandid(run, c, i - 1);
    }
  }

  lemma {:induction false} DeliveredWasTried(e: Endpoint, peer: Endpoint, t: Tid)
    requires Candid(e, peer) && WasDelivered(peer.receiver, t)
    ensures WasTried(e.sender, t)
  {
  }

  /** In every run: what was delivered had been put on the wire as a whole. */
  lemma {:induction false} DeliveredWasTransmitted(run: Run, c: Configs, i: nat, side: Side, t: Tid)
    requires IsRun(run, c) && i < |run.worlds| && WasDelivered(run.worlds[i].At(side.Other()).receiver, t)
    ensures var e := run.worlds[i].At(side);
            && WasTried(e.sender, t) && t in e.sender.sent
            && forall p :: p in Transmission(t, e.sender.sent[t].packed) ==> p in e.wire
  {
    RunIsCandid(run, c, i);
    var e, peer := run.worlds[i].At(side), run.worlds[i].At(side.Other());
    assert Candid(e, peer);
    DeliveredWasTried(e, peer, t);
    assert AllOnWire(e.wire, t, e.sender.sent[t].packed);
  }

  /** A send of which no data was ever put on the wire has not been delivered, whether it was rejected or not. */
  lemma {:induction false} UntransmittedIsNotDelivered(run: Run, c: Configs, i: nat, side: Side, t: Tid)
    requires IsRun(run, c) && i < |run.worlds| && !IsOnWire(run.worlds[i].At(side).wire, t)
    ensures !WasDelivered(run.worlds[i].At(side.Other()).receiver, t)
  {
    if WasDelivered(run.worlds[i].At(side.Other()).receiver, t) {
      DeliveredWasTransmitted(run, c, i, side, t);
      var e := run.worlds[i].At(side);
      assert CompletePacket(t) in Transmission(t, e.sender.sent[t].packed) by {
        TransmissionBelongs(t, e.sender.sent[t].packed);
      }
      assert IsData(CompletePacket(t)) && CompletePacket(t).tid == t;
    }
  }

  // ---- one attempt only ----------------------------------------------------------------------------

  ghost predicate NothingEverResolved(s: Sender) { forall t :: !HasOutcome(s.outcomes, t, true) }

  /** With one attempt allowed, what is pending was never tried. */
  lemma {:induction false} PendingIsUntried(s: Sender, c: Config, t: Tid)
    requires Counted(s, c) && c.maxAttempts <= 1 && t in s.pending.vals
    ensures !WasTried(s, t)
  {
    assert Unfinished(s, c, t);
  }

  /** An acknowledgement finds its send no longer pending: it was tried, and failed with its only try. */
  lemma {:induction false} AckComesTooLate(e: Endpoint, c: Config, peer: Endpoint, pc: Config, t: Tid)
    requires Good(e, c, peer, pc) && Candid(e, peer) && c.maxAttempts <= 1 && AckPacket(t) in peer.wire
    ensures HandleAck(e.sender, c, e.now, t) == e.sender
  {
    assert AckPacket(t).tid == t;
    assert WasDelivered(peer.receiver, t);
    assert WasTried(e.sender, t);
    if t in e.sender.pending.vals {
      PendingIsUntried(e.sender, c, t);
    }
  }

  lemma {:induction false} ArrivalResolvesNothing(e: Endpoint, c: Config, peer: Endpoint, pc: Config, p: Packet)
    requires Good(e, c, peer, pc) && Candid(e, peer) && MayArrive(p, peer)
    requires c.maxAttempts <= 1 && NothingEverResolved(e.sender)
    ensures NothingEverResolved(ArriveAt(e, c, p).sender)
  {
    if p.AckPacket? {
      AckComesTooLate(e, c, peer, pc, p.tid);
    }
    ArrivalConcludesNothing(e, c, p);
  }

  lemma {:induction false} ArrivalConcludesNothing(e: Endpoint, c: Config, p: Packet)
    requires p.AckPacket? ==> HandleAck(e.sender, c, e.now, p.tid) == e.sender
    ensures ArriveAt(e, c, p).sender.outcomes == e.sender.outcomes
  {
  }

  lemma {:induction false} NextResolvesNothing(e: Endpoint, c: Config, peer: Endpoint, pc: Config, ev: Event)
    requires Good(e, c, peer, pc) && Candid(e, peer) && Enabled(e, peer, ev)
    requires c.maxAttempts <= 1 && NothingEverResolved(e.sender)
    ensures NothingEverResolved(Next(e, c, ev).sender)
  {
    match ev
    case SendValue(t, data, o, ids) =>
      if SplitJson(data, o, ids).Success? {
        SendKeepsOrder(e.sender, c, e.now, e.open, t, Unit(data, SplitJson(data, o, ids).value));
      }
    case Arrive(p) =>
      ArrivalResolvesNothing(e, c, peer, pc, p);
    case Resend(t) => ResendTickKeepsOrder(e.sender, c, e.now, e.open, t);
    case Detach => DetachKeepsOrder(e.sender, c, e.now);
    case _ =>
  }

  lemma {:induction false} MoveResolvesNothing(run: Run, c: Configs, i: nat)
    requires IsRun(run, c) && i < |run.moves| && c.At(run.moves[i].side).maxAttempts <= 1
    requires NothingEverResolved(run.worlds[i].At(run.moves[i].side).sender)
    ensures NothingEverResolved(run.worlds[i + 1].At(run.moves[i].side).sender)
  {
    var m := run.moves[i];
    var e := MoveIsNext(run, c, i, m.side, m.event);
    var peer := run.worlds[i].At(m.side.Other());
    RunIsCandid(run, c, i);
    assert Candid(e, peer);
    RunIsGood(run, c, i);
    GoodFromBothSides(run.worlds[i], c, m.side);
    NextResolvesNothing(e, c.At(m.side), peer, c.At(m.side.Other()), m.event);
  }

  /** With at most one attempt allowed no send ever resolves: the code fails a send in the very step that transmits it for
      the last time, so every acknowledgement comes too late. */
  lemma {:induction false} OneAttemptNeverResolves(run: Run, c: Configs, i: nat, side: Side)
    requires IsRun(run, c) && i < |run.worlds| && c.At(side).maxAttempts <= 1
    ensures NothingEverResolved(run.worlds[i].At(side).sender)
  {
    if i > 0 {
      OneAttemptNeverResolves(run, c, i - 1, side);
      if run.moves[i - 1].side == side {
        MoveResolvesNothing(run, c, i - 1);
      } else {
        OthersStandStill(run, c, i - 1);
      }
    }
  }
}
