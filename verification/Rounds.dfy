/** Repair as runs: the nack timer fires, the nack reaches the sender, and its answer reaches the receiver. */
module Rounds {
  import opened Outcomes
  import opened Json
  import opened Split
  import opened Ordered
  import opened Settlement
  import opened Deliveries
  import opened Packets
  import opened Receiving
  import opened ReceiverSafety
  import opened Sending
  import opened Protocol
  import opened Runs
  import opened Repairing
  import opened Tidiness
  import opened Asking
  import opened Lossless

  /** No resend timer fires. */
  ghost predicate NeverResends(run: Run) { forall i :: 0 <= i < |run.moves| ==> !run.moves[i].event.Resend? }

  /** The run goes on from `run`, by other moves than resends. */
  ghost predicate GoesOn(run: Run, longer: Run, c: Configs) {
    && IsRun(longer, c) && run.worlds != [] && longer.worlds[0] == run.worlds[0]
    && (NeverResends(run) ==> NeverResends(longer))
  }

  lemma {:induction false} GoOnWith(run: Run, c: Configs, m: Move) returns (longer: Run)
    requires IsRun(run, c) && Allowed(LastWorld(run), m) && !m.event.Resend?
    ensures GoesOn(run, longer, c) && LastWorld(longer) == Advance(LastWorld(run), c, m)
  {
    longer := GoOn(run, c, m);
  }

  // ---- packets of one transfer arrive --------------------------------------------------------------

  /** The transfer is on its way: pending on the left, and what has come to the right is `seen`. */
  ghost predicate IsUnderWay(w: World, c: Configs, t: Tid, seen: set<Packet>) {
    && w.left.attached && w.right.attached && t in w.left.sender.pending.vals
    && Holding(w.right.receiver, c.right, w.right.now, t, w.left.sender.sent, w.left.sender.gaveUp, seen)
    && t in w.left.sender.sent && !Covers(seen, t, w.left.sender.sent[t])
  }

  /** The transfer has just been delivered, and acknowledged. */
  ghost predicate IsDelivered(before: World, after: World, t: Tid) {
    && t in before.left.sender.sent
    && after.right.receiver.delivered
       == before.right.receiver.delivered + [Delivery(t, before.left.sender.sent[t].data, before.right.now)]
    && AckPacket(t) in after.right.wire
    && after.left.sender == before.left.sender && after.left.attached == before.left.attached
    && after.right.now == before.right.now
  }

  /** A packet that the left endpoint has put on its wire. */
  ghost predicate CanArrive(w: World, t: Tid, p: Packet) {
    && t in w.left.sender.sent && p in w.left.wire && IsPacketOf(p, t, w.left.sender.sent[t]) && WellShaped(p)
  }

  ghost predicate AllCanArrive(w: World, t: Tid, packets: seq<Packet>) {
    forall i :: 0 <= i < |packets| ==> CanArrive(w, t, packets[i])
  }

  /** What one more packet comes to. */
  ghost predicate TakesPacket(w: World, w': World, c: Configs, t: Tid, seen: set<Packet>) {
    && w'.left == w.left && w'.right.now == w.right.now
    && if t in w.left.sender.sent && Covers(seen, t, w.left.sender.sent[t]) then IsDelivered(w, w', t)
       else IsUnderWay(w', c, t, seen) && IsWaiting(w'.right.receiver, t)
            && w'.right.receiver.delivered == w.right.receiver.delivered
  }

  lemma {:induction false} PacketIsTaken(w: World, c: Configs, t: Tid, seen: set<Packet>, p: Packet)
    requires IsUnderWay(w, c, t, seen) && CanArrive(w, t, p) && Valid(w.right.receiver.states)
    ensures TakesPacket(w, Advance(w, c, Move(Right, Arrive(p))), c, t, See(seen, p))
  {
    var e, sender := w.right, w.left.sender;
    DataArmsTimer(e, c.right, p);
    OneMorePacket(e.receiver, c.right, e.now, t, sender.sent, sender.gaveUp, seen, p);
    PacketAcks(e, c.right, p, t, sender.sent, sender.gaveUp, seen);
  }

  lemma {:induction false} PacketAcks(e: Endpoint, c: Config, p: Packet, t: Tid, sent: Sent, gaveUp: set<Tid>, seen: set<Packet>)
    requires Holding(e.receiver, c, e.now, t, sent, gaveUp, seen) && e.attached && WellShaped(p) && IsPacketOf(p, t, sent[t])
    ensures var e' := ArriveAt(e, c, p);
            && e'.receiver == Receive(e.receiver, c, e.now, p).0
            && e'.now == e.now && e'.attached
            && (Covers(See(seen, p), t, sent[t]) ==> AckPacket(t) in e'.wire)
  {
    assert Genuine(sent[t].packed, sent[t].data);
    PacketArrives(e.receiver, c, e.now, p, t, sent[t], seen);
  }

  /** Packets on the wire arrive one after another, until the transfer is delivered. */
  lemma {:induction false} PacketsArrive(run: Run, c: Configs, t: Tid, seen: set<Packet>, packets: seq<Packet>) returns (longer: Run)
    requires IsRun(run, c) && IsUnderWay(LastWorld(run), c, t, seen) && AllCanArrive(LastWorld(run), t, packets)
    ensures GoesOn(run, longer, c) && LastWorld(longer).left == LastWorld(run).left
    ensures || IsDelivered(LastWorld(run), LastWorld(longer), t)
            || (packets == [] && longer == run)
            || TakesPacket(LastWorld(run), LastWorld(longer), c, t, SeeAll(seen, packets))
    decreases |packets|
  {
    if packets == [] {
      longer := run;
    } else {
      var before, last := packets[..|packets| - 1], packets[|packets| - 1];
      longer := PacketsArrive(run, c, t, seen, before);
      if !IsDelivered(LastWorld(run), LastWorld(longer), t) {
        var w := LastWorld(longer);
        RunIsTidy(longer, c, |longer.worlds| - 1, Right);
        PacketIsTaken(w, c, t, SeeAll(seen, before), last);
        longer := GoOnWith(longer, c, Move(Right, Arrive(last)));
      }
    }
  }

  // ---- a nack and its answer -----------------------------------------------------------------------

  /** The receiver waits for more of the transfer, with its timer set, and the sender still has it pending. */
  ghost predicate Waits(w: World, c: Configs, t: Tid) {
    && w.left.attached && w.right.attached && t in w.left.sender.pending.vals
    && IsWaiting(w.right.receiver, t) && InProgress(w.right.receiver, c.right, w.right.now, t)
  }

  /** What the receiver holds of the transfer. */
  function HeldBy(w: World, t: Tid): set<Packet>
    requires t in w.right.receiver.states.vals && t in w.left.sender.sent
  {
    Held(w.right.receiver.states.vals[t], t, w.left.sender.sent[t])
  }

  lemma {:induction false} WaitingIsUnderWay(run: Run, c: Configs, t: Tid)
    requires IsRun(run, c) && Waits(LastWorld(run), c, t)
    ensures t in LastWorld(run).left.sender.sent && IsUnderWay(LastWorld(run), c, t, HeldBy(LastWorld(run), t))
  {
    var w := LastWorld(run);
    RunIsGood(run, c, |run.worlds| - 1);
    RunIsTidy(run, c, |run.worlds| - 1, Right);
    HoldsWhatItHolds(w, c, t);
  }

  lemma {:induction false} HoldsWhatItHolds(w: World, c: Configs, t: Tid)
    requires GoodWorld(w, c) && Tidy(w.right.receiver, w.left.sender.sent) && Waits(w, c, t)
    ensures t in w.left.sender.sent && IsUnderWay(w, c, t, HeldBy(w, t))
  {
    var r, sender := w.right.receiver, w.left.sender;
    assert LacksSomething(r, sender.sent, t);
    StartsHolding(r, c.right, w.right.now, t, sender.sent, sender.gaveUp);
    HeldIsReflected(r.states.vals[t], t, sender.sent[t]);
    CoversMeansWhole(r.states.vals[t], t, sender.sent[t], HeldBy(w, t));
  }

  lemma {:induction false} OwnPacketIsWellShaped(p: Packet, t: Tid, u: Unit)
    requires Genuine(u.packed, u.data) && IsPacketOf(p, t, u) && (p.ChunkPacket? ==> p.intact)
    ensures WellShaped(p)
  {
    if p.ChunkPacket? {
      assert ChunkFits(u.packed.refs, p.chunk);
    }
  }

  /** Putting the answer to the nack on the wire. */
  ghost predicate HasAnswered(w: World, w': World, t: Tid) {
    && t in w.right.receiver.states.vals
    && w'.left == w.left.(wire := Emit(w.left.wire, RepairRound(w.right.receiver, t, w.left.sender)))
    && w'.right == w.right.(receiver := w'.right.receiver, wire := w'.right.wire)
    && w'.right.receiver == w.right.receiver.(nackTimers := w.right.receiver.nackTimers - {t})
  }

  /** The timer fires, and the nack reaches the sender, who answers. */
  lemma {:induction false} NackIsAnswered(run: Run, c: Configs, t: Tid) returns (longer: Run)
    requires IsRun(run, c) && Waits(LastWorld(run), c, t)
    ensures GoesOn(run, longer, c) && HasAnswered(LastWorld(run), LastWorld(longer), t)
  {
    var w := LastWorld(run);
    var nack := BuildNack(t, w.right.receiver.states.vals[t]);
    TimerAsks(w.right, c.right, t);
    longer := GoOnWith(run, c, Move(Right, NackTimer(t)));
    longer := GoOnWith(longer, c, Move(Left, Arrive(nack)));
  }

  lemma {:induction false} AnswerCanArrive(w: World, w': World, c: Configs, t: Tid)
    requires GoodWorld(w, c) && Waits(w, c, t) && HasAnswered(w, w', t)
    ensures t in w.left.sender.sent && AllCanArrive(w', t, RepairRound(w.right.receiver, t, w.left.sender))
  {
    var r, sender := w.right.receiver, w.left.sender;
    AnswerIsRound(r, t, sender, c.left, w.left.now);
    var u, out := sender.sent[t], RepairRound(r, t, sender);
    assert Genuine(u.packed, u.data) && FromUnit(r.states.vals[t], u);
    forall i | 0 <= i < |out| ensures CanArrive(w', t, out[i]) {
      AnswersArePackets(t, r.states.vals[t], u, i);
      OwnPacketIsWellShaped(out[i], t, u);
      assert out[i] in out;
    }
  }

  lemma {:induction false} AnsweringKeepsUnderWay(w: World, w': World, c: Configs, t: Tid, seen: set<Packet>)
    requires IsUnderWay(w, c, t, seen) && HasAnswered(w, w', t)
    ensures IsUnderWay(w', c, t, seen)
  {
    TimersDoNotMatter(w.right.receiver, w'.right.receiver, c.right, w.right.now, w.left.sender.sent, w.left.sender.gaveUp);
  }

  /** What one round comes to: delivered, or under way with everything that was asked for. */
  ghost predicate RoundEnds(w: World, w': World, c: Configs, t: Tid, seen: set<Packet>) {
    || IsDelivered(w, w', t)
    || (IsUnderWay(w', c, t, seen) && IsWaiting(w'.right.receiver, t) && w'.left.sender == w.left.sender
        && w'.right.now == w.right.now && w'.right.receiver.delivered == w.right.receiver.delivered)
  }

  /** A round: the timer fires, the nack arrives at the sender, and its answer arrives. */
  lemma {:induction false} Round(run: Run, c: Configs, t: Tid) returns (longer: Run)
    requires IsRun(run, c) && Waits(LastWorld(run), c, t)
    requires RepairRound(LastWorld(run).right.receiver, t, LastWorld(run).left.sender) != []
    ensures t in LastWorld(run).left.sender.sent && GoesOn(run, longer, c)
    ensures var w := LastWorld(run);
            RoundEnds(w, LastWorld(longer), c, t, SeeAll(HeldBy(w, t), RepairRound(w.right.receiver, t, w.left.sender)))
  {
    var w := LastWorld(run);
    var out := RepairRound(w.right.receiver, t, w.left.sender);
    RunIsGood(run, c, |run.worlds| - 1);
    WaitingIsUnderWay(run, c, t);
    longer := NackIsAnswered(run, c, t);
    AnswerCanArrive(w, LastWorld(longer), c, t);
    AnsweringKeepsUnderWay(w, LastWorld(longer), c, t, HeldBy(w, t));
    longer := PacketsArrive(longer, c, t, HeldBy(w, t), out);
  }

  /** With the manifest held, one round delivers the transfer. */
  lemma {:induction false} OneRoundDelivers(run: Run, c: Configs, t: Tid) returns (longer: Run)
    requires IsRun(run, c) && Waits(LastWorld(run), c, t)
    requires LastWorld(run).right.receiver.states.vals[t].manifest.Some?
    ensures GoesOn(run, longer, c) && IsDelivered(LastWorld(run), LastWorld(longer), t)
  {
    var w := LastWorld(run);
    RunIsGood(run, c, |run.worlds| - 1);
    WaitingIsUnderWay(run, c, t);
    AnswerCovers(w, c, t);
    longer := Round(run, c, t);
  }

  lemma {:induction false} AnswerCovers(w: World, c: Configs, t: Tid)
    requires GoodWorld(w, c) && Waits(w, c, t) && w.right.receiver.states.vals[t].manifest.Some?
    requires t in w.left.sender.sent && IsUnderWay(w, c, t, HeldBy(w, t))
    ensures var out := RepairRound(w.right.receiver, t, w.left.sender);
            out != [] && Covers(SeeAll(HeldBy(w, t), out), t, w.left.sender.sent[t])
  {
    AnswerIsRound(w.right.receiver, t, w.left.sender, c.left, w.left.now);
    assert Genuine(w.left.sender.sent[t].packed, w.left.sender.sent[t].data);
    RepairCovers(w.right.receiver.states.vals[t], t, w.left.sender.sent[t]);
  }

  /** Whatever was lost: with any part of the transfer there, at most two rounds deliver it. */
  lemma {:induction false} TwoRoundsDeliver(run: Run, c: Configs, t: Tid) returns (longer: Run)
    requires IsRun(run, c) && Waits(LastWorld(run), c, t)
    ensures GoesOn(run, longer, c) && IsDelivered(LastWorld(run), LastWorld(longer), t)
  {
    var w := LastWorld(run);
    if w.right.receiver.states.vals[t].manifest.Some? {
      longer := OneRoundDelivers(run, c, t);
    } else {
      RunIsGood(run, c, |run.worlds| - 1);
      FirstRoundBringsManifest(w.right.receiver, t, w.left.sender, c.left, w.left.now);
      longer := Round(run, c, t);
      if !IsDelivered(w, LastWorld(longer), t) {
        ManifestIsThere(w, LastWorld(longer), c, t, HeldBy(w, t));
        longer := OneRoundDelivers(longer, c, t);
      }
    }
  }

  lemma {:induction false} ManifestIsThere(w: World, w': World, c: Configs, t: Tid, seen: set<Packet>)
    requires t in w.left.sender.sent
    requires var manifest := ManifestPacket(t, ManifestOf(w.left.sender.sent[t].packed));
             RoundEnds(w, w', c, t, SeeAll(seen, [manifest])) && !IsDelivered(w, w', t)
    ensures Waits(w', c, t) && w'.right.receiver.states.vals[t].manifest.Some?
  {
    var manifest := ManifestPacket(t, ManifestOf(w.left.sender.sent[t].packed));
    assert [manifest][..0] == [] && SeeAll(seen, [manifest]) == See(seen, manifest);
  }

  // ---- whatever is lost ----------------------------------------------------------------------------

  lemma {:induction false} AckArrives(run: Run, c: Configs, t: Tid) returns (longer: Run)
    requires IsRun(run, c) && AckPacket(t) in LastWorld(run).right.wire
    requires LastWorld(run).left.attached && t in LastWorld(run).left.sender.pending.vals
    ensures GoesOn(run, longer, c) && LastWorld(longer).right == LastWorld(run).right
    ensures HasOutcome(LastWorld(longer).left.sender.outcomes, t, true)
  {
    longer := GoOnWith(run, c, Move(Left, Arrive(AckPacket(t))));
    var outcomes := LastWorld(run).left.sender.outcomes;
    assert LastWorld(longer).left.sender.outcomes[|outcomes|] == Outcome(t, true);
  }

  /** The value has been sent, and nothing of it has arrived. */
  lemma {:induction false} SendOnly(w: World, c: Configs, t: Tid, data: Json, o: Options, ids: ChunkIds) returns (run: Run)
    requires Fresh(w.left) && Fresh(w.right) && w.left.open && c.left.maxAttempts > 1 && c.left.deadlineMs > 0
    requires WellFormed(data) && data.Node? && Distinct(ids) && SplitJson(data, o, ids).Success?
    ensures IsRun(run, c) && run.worlds[0] == w && NeverResends(run)
    ensures LastWorld(run) == World(SendAt(w.left, c.left, t, Unit(data, SplitJson(data, o, ids).value)), w.right)
  {
    run := GoOnWith(Run([w], []), c, Move(Left, SendValue(t, data, o, ids)));
  }

  lemma {:induction false} SentIsUnderWay(w: World, c: Configs, t: Tid, u: Unit)
    requires GoodWorld(w, c) && Fresh(w.right) && w.left.attached && t in w.left.sender.pending.vals
    requires t in w.left.sender.sent && w.left.sender.sent[t] == u
    ensures IsUnderWay(w, c, t, {})
  {
    NothingSeen(t, u, w.right.now);
  }

  lemma {:induction false} SentCanArrive(w: World, t: Tid, u: Unit, packets: seq<Packet>)
    requires Genuine(u.packed, u.data) && t in w.left.sender.sent && w.left.sender.sent[t] == u
    requires forall p :: p in Transmission(t, u.packed) ==> p in w.left.wire
    requires forall i :: 0 <= i < |packets| ==> packets[i] in Transmission(t, u.packed)
    ensures AllCanArrive(w, t, packets)
  {
    TransmissionIsWellShaped(t, u);
  }

  /** For every value, sent once between fresh endpoints: if anything at all of the transmission arrives, in any order and
      with any repetitions, then nacks bring the rest. There is a run without a single resend in which the value is
      delivered once and the send resolves. */
  lemma {:induction false} NacksMakeUpForLoss(w: World, c: Configs, t: Tid, data: Json, o: Options, ids: ChunkIds, arrived: seq<Packet>)
    returns (run: Run)
    requires Fresh(w.left) && Fresh(w.right) && w.left.open && c.left.maxAttempts > 1 && c.left.deadlineMs > 0
    requires WellFormed(data) && data.Node? && Distinct(ids) && SplitJson(data, o, ids).Success?
    requires arrived != [] && forall i :: 0 <= i < |arrived| ==> arrived[i] in Transmission(t, SplitJson(data, o, ids).value)
    ensures IsRun(run, c) && run.worlds[0] == w && NeverResends(run)
    ensures HasOutcome(LastWorld(run).left.sender.outcomes, t, true)
    ensures LastWorld(run).right.receiver.delivered == [Delivery(t, data, w.right.now)]
  {
    run := SendSome(w, c, t, data, o, ids, arrived);
    if LastWorld(run).right.receiver.delivered == [] {
      run := TwoRoundsDeliver(run, c, t);
    }
    run := AckArrives(run, c, t);
  }

  /** The value is sent, and these packets arrive: it is delivered, or the receiver waits for the rest. */
  lemma {:induction false} SendSome(w: World, c: Configs, t: Tid, data: Json, o: Options, ids: ChunkIds, arrived: seq<Packet>)
    returns (run: Run)
    requires Fresh(w.left) && Fresh(w.right) && w.left.open && c.left.maxAttempts > 1 && c.left.deadlineMs > 0
    requires WellFormed(data) && data.Node? && Distinct(ids) && SplitJson(data, o, ids).Success?
    requires arrived != [] && forall i :: 0 <= i < |arrived| ==> arrived[i] in Transmission(t, SplitJson(data, o, ids).value)
    ensures IsRun(run, c) && run.worlds[0] == w && NeverResends(run)
    ensures SomeHasArrived(LastWorld(run), c, t, data, w.right.now)
  {
    var u := Unit(data, SplitJson(data, o, ids).value);
    SplitIsGenuine(data, o, ids, u.packed);
    FirstAttemptIsSent(w.left, c.left, t, u);
    run := SendOnly(w, c, t, data, o, ids);
    SentIsRecorded(w.left, c.left, t, u);
    RunIsGood(run, c, |run.worlds| - 1);
    ghost var sent := LastWorld(run);
    SentIsUnderWay(sent, c, t, u);
    SentCanArrive(sent, t, u, arrived);
    run := PacketsArrive(run, c, t, {}, arrived);
    SomeArrival(sent, LastWorld(run), c, t, u, SeeAll({}, arrived));
  }

  /** Delivered and acknowledged, or waiting for more; the sender has it pending in any case. */
  ghost predicate SomeHasArrived(w: World, c: Configs, t: Tid, data: Json, now: int) {
    && w.left.attached && t in w.left.sender.pending.vals && w.right.now == now
    && t in w.left.sender.sent && w.left.sender.sent[t].data == data
    && ((w.right.receiver.delivered == [Delivery(t, data, now)] && AckPacket(t) in w.right.wire)
        || (w.right.receiver.delivered == [] && Waits(w, c, t)))
  }

  lemma {:induction false} SomeArrival(sent: World, w: World, c: Configs, t: Tid, u: Unit, seen: set<Packet>)
    requires sent.left.attached && t in sent.left.sender.pending.vals && sent.right.receiver.delivered == []
    requires t in sent.left.sender.sent && sent.left.sender.sent[t] == u && w.right.now == sent.right.now
    requires IsDelivered(sent, w, t) || TakesPacket(sent, w, c, t, seen)
    ensures SomeHasArrived(w, c, t, u.data, sent.right.now)
  {
    assert [] + [Delivery(t, u.data, sent.right.now)] == [Delivery(t, u.data, sent.right.now)];
  }

  lemma {:induction false} SentIsRecorded(e: Endpoint, c: Config, t: Tid, u: Unit)
    ensures var e' := SendAt(e, c, t, u); t in e'.sender.sent && e'.sender.sent[t] == u
  {
  }
}
