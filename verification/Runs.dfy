/** Theorems about every run of two endpoints. */
module Runs {
  import opened Outcomes
  import opened Text
  import opened Json
  import opened Split
  import opened Ordered
  import opened Settlement
  import opened Deliveries
  import opened Packets
  import opened Receiving
  import opened ReceiverSafety
  import opened Sending
  import opened Protocol
  import opened History

  datatype Side = Left | Right {
    function Other(): Side { if Left? then Right else Left }
  }

  datatype World = World(left: Endpoint, right: Endpoint) {
    function At(side: Side): Endpoint { if side.Left? then left else right }

    function Set(side: Side, e: Endpoint): World { if side.Left? then this.(left := e) else this.(right := e) }
  }

  datatype Configs = Configs(left: Config, right: Config) {
    function At(side: Side): Config { if side.Left? then left else right }
  }

  datatype Move = Move(side: Side, event: Event)

  ghost predicate Allowed(w: World, m: Move) { Enabled(w.At(m.side), w.At(m.side.Other()), m.event) }

  function Advance(w: World, c: Configs, m: Move): World { w.Set(m.side, Next(w.At(m.side), c.At(m.side), m.event)) }

  /** A run starts with two fresh endpoints and makes one move after another. */
  datatype Run = Run(worlds: seq<World>, moves: seq<Move>)

  ghost predicate IsStep(run: Run, c: Configs, i: nat)
    requires i < |run.moves| && |run.worlds| == |run.moves| + 1
  {
    Allowed(run.worlds[i], run.moves[i]) && run.worlds[i + 1] == Advance(run.worlds[i], c, run.moves[i])
  }

  ghost predicate IsRun(run: Run, c: Configs) {
    && |run.worlds| == |run.moves| + 1
    && Fresh(run.worlds[0].left) && Fresh(run.worlds[0].right)
    && forall i {:trigger IsStep(run, c, i)} :: 0 <= i < |run.moves| ==> IsStep(run, c, i)
  }

  ghost predicate GoodWorld(w: World, c: Configs) { Good(w.left, c.left, w.right, c.right) }

  lemma {:induction false} GoodFromBothSides(w: World, c: Configs, side: Side)
    ensures GoodWorld(w, c) <==> Good(w.At(side), c.At(side), w.At(side.Other()), c.At(side.Other()))
  {
  }

  lemma {:induction false} FreshIsGood(w: World, c: Configs)
    requires Fresh(w.left) && Fresh(w.right)
    ensures GoodWorld(w, c)
  {
  }

  lemma {:induction false} AdvanceIsGood(w: World, c: Configs, m: Move)
    requires GoodWorld(w, c) && Allowed(w, m)
    ensures GoodWorld(Advance(w, c, m), c)
  {
    GoodFromBothSides(w, c, m.side);
    NextIsGood(w.At(m.side), c.At(m.side), w.At(m.side.Other()), c.At(m.side.Other()), m.event);
    GoodFromBothSides(Advance(w, c, m), c, m.side);
  }

  lemma {:induction false} RunIsGood(run: Run, c: Configs, i: nat)
    requires IsRun(run, c) && i < |run.worlds|
    ensures GoodWorld(run.worlds[i], c)
  {
    if i == 0 {
      FreshIsGood(run.worlds[0], c);
    } else {
      RunIsGood(run, c, i - 1);
      assert IsStep(run, c, i - 1);
      AdvanceIsGood(run.worlds[i - 1], c, run.moves[i - 1]);
    }
  }

  // ---- agreement -----------------------------------------------------------------------------------

  ghost predicate DeliveredValue(r: Receiver, t: Tid, v: Json) {
    exists i :: 0 <= i < |r.delivered| && r.delivered[i].tid == t && r.delivered[i].value == v
  }

  /** Every acknowledgement that was ever on the wire follows the delivery of the value sent. */
  lemma {:induction false} AcknowledgedMeansDelivered(run: Run, c: Configs, i: nat, side: Side, t: Tid)
    requires IsRun(run, c) && i < |run.worlds|
    requires AckPacket(t) in run.worlds[i].At(side.Other()).wire
    ensures var sender, receiver := run.worlds[i].At(side).sender, run.worlds[i].At(side.Other()).receiver;
            t in sender.sent && DeliveredValue(receiver, t, sender.sent[t].data)
  {
    RunIsGood(run, c, i);
    GoodFromBothSides(run.worlds[i], c, side);
    assert AckPacket(t).tid == t;
    WasDeliveredTrue(run.worlds[i].At(side.Other()).receiver, run.worlds[i].At(side).sender.sent, t);
  }

  lemma {:induction false} WasDeliveredTrue(r: Receiver, sent: Sent, t: Tid)
    requires WasDelivered(r, t) && DeliveredGenuine(r.delivered, sent)
    ensures t in sent && DeliveredValue(r, t, sent[t].data)
  {
  }

  /** A send that resolved has been delivered by the other side, with the value it was sent with. */
  lemma {:induction false} Agreement(run: Run, c: Configs, i: nat, side: Side, t: Tid)
    requires IsRun(run, c) && i < |run.worlds|
    requires HasOutcome(run.worlds[i].At(side).sender.outcomes, t, true)
    ensures var sender, receiver := run.worlds[i].At(side).sender, run.worlds[i].At(side.Other()).receiver;
            t in sender.sent && DeliveredValue(receiver, t, sender.sent[t].data)
  {
    RunIsGood(run, c, i);
    GoodFromBothSides(run.worlds[i], c, side);
    WasDeliveredTrue(run.worlds[i].At(side.Other()).receiver, run.worlds[i].At(side).sender.sent, t);
  }

  // ---- runs go forward -----------------------------------------------------------------------------

  lemma {:induction false} MoveCarries(run: Run, c: Configs, i: nat, side: Side)
    requires IsRun(run, c) && i < |run.moves|
    ensures Carries(run.worlds[i].At(side), run.worlds[i + 1].At(side))
  {
    var m := run.moves[i];
    assert IsStep(run, c, i);
    RunIsGood(run, c, i);
    if m.side == side {
      GoodFromBothSides(run.worlds[i], c, side);
      NextCarries(run.worlds[i].At(side), c.At(side), run.worlds[i].At(side.Other()), c.At(side.Other()), m.event);
    } else {
      StandingStillCarries(run.worlds[i].At(side));
    }
  }

  lemma {:induction false} StandingStillCarries(e: Endpoint)
    ensures Carries(e, e)
  {
  }

  /** Nothing sent, concluded, put on the wire or delivered is ever undone. */
  lemma {:induction false} HistoryStands(run: Run, c: Configs, i: nat, j: nat, side: Side)
    requires IsRun(run, c) && i <= j < |run.worlds|
    ensures Continues(run.worlds[i].At(side), run.worlds[j].At(side))
    decreases j
  {
    if i < j {
      HistoryStands(run, c, i, j - 1, side);
      MoveCarries(run, c, j - 1, side);
      ContinuesIsTransitive(run.worlds[i].At(side), run.worlds[j - 1].At(side), run.worlds[j].At(side));
    } else {
      StandingStillCarries(run.worlds[i].At(side));
    }
  }

  /** When the promise of a send has resolved, the other side has delivered the very value given to that send. */
  lemma {:induction false} ResolvedMeansDelivered(run: Run, c: Configs, i: nat, j: nat, side: Side, t: Tid, data: Json, o: Options, ids: ChunkIds)
    requires IsRun(run, c) && i < |run.moves| && i < j < |run.worlds|
    requires run.moves[i] == Move(side, SendValue(t, data, o, ids)) && SplitJson(data, o, ids).Success?
    requires HasOutcome(run.worlds[j].At(side).sender.outcomes, t, true)
    ensures DeliveredValue(run.worlds[j].At(side.Other()).receiver, t, data)
  {
    SentByMove(run, c, i, side, t, data, o, ids);
    RecordedValueIsDelivered(run, c, i + 1, j, side, t, data);
  }

  lemma {:induction false} SentByMove(run: Run, c: Configs, i: nat, side: Side, t: Tid, data: Json, o: Options, ids: ChunkIds)
    requires IsRun(run, c) && i < |run.moves|
    requires run.moves[i] == Move(side, SendValue(t, data, o, ids)) && SplitJson(data, o, ids).Success?
    ensures var s := run.worlds[i + 1].At(side).sender; t in s.sent && s.sent[t].data == data
  {
    var e := MoveIsNext(run, c, i, side, SendValue(t, data, o, ids));
    SendIsRecorded(e, c.At(side), t, Unit(data, SplitJson(data, o, ids).value));
  }

  lemma {:induction false} MoveIsNext(run: Run, c: Configs, i: nat, side: Side, ev: Event) returns (e: Endpoint)
    requires IsRun(run, c) && i < |run.moves| && run.moves[i] == Move(side, ev)
    ensures e == run.worlds[i].At(side) && Enabled(e, run.worlds[i].At(side.Other()), ev)
    ensures Orderly(e.sender, c.At(side), e.now)
    ensures run.worlds[i + 1].At(side) == Next(e, c.At(side), ev)
  {
    e := run.worlds[i].At(side);
    assert IsStep(run, c, i);
    RunIsGood(run, c, i);
    GoodFromBothSides(run.worlds[i], c, side);
  }

  lemma {:induction false} RecordedValueIsDelivered(run: Run, c: Configs, i: nat, j: nat, side: Side, t: Tid, data: Json)
    requires IsRun(run, c) && i <= j < |run.worlds|
    requires t in run.worlds[i].At(side).sender.sent && run.worlds[i].At(side).sender.sent[t].data == data
    requires HasOutcome(run.worlds[j].At(side).sender.outcomes, t, true)
    ensures DeliveredValue(run.worlds[j].At(side.Other()).receiver, t, data)
  {
    Agreement(run, c, j, side, t);
    HistoryStands(run, c, i, j, side);
  }

  lemma {:induction false} SendIsRecorded(e: Endpoint, c: Config, t: Tid, u: Unit)
    requires Orderly(e.sender, c, e.now) && t !in e.sender.sent
    ensures var s' := SendAt(e, c, t, u).sender; t in s'.sent && s'.sent[t] == u
  {
    SendKeepsOrder(e.sender, c, e.now, e.open, t, u);
  }

  // ---- at most once --------------------------------------------------------------------------------

  ghost predicate RememberedThroughout(run: Run, i: nat, j: nat, side: Side, t: Tid)
    requires i <= j < |run.worlds|
  {
    forall k {:trigger run.worlds[k]} :: i <= k <= j ==> t in run.worlds[k].At(side).receiver.settled.vals
  }

  /** While a settled transfer is remembered it is not delivered again; if it was settled as failed it is not
      acknowledged either, and stays failed. */
  lemma {:induction false} RememberedMeansQuiet(run: Run, c: Configs, i: nat, j: nat, side: Side, t: Tid)
    requires IsRun(run, c) && i <= j < |run.worlds| && RememberedThroughout(run, i, j, side, t)
    ensures QuietAbout(run.worlds[i].At(side), run.worlds[j].At(side), t)
    decreases j
  {
    if i < j {
      assert run.worlds[i] in run.worlds;
      RememberedMeansQuiet(run, c, i, j - 1, side, t);
      assert t in run.worlds[j - 1].At(side).receiver.settled.vals;
      MoveCarries(run, c, j - 1, side);
      assert QuietAbout(run.worlds[j - 1].At(side), run.worlds[j].At(side), t);
      QuietInTurn(run.worlds[i].At(side), run.worlds[j - 1].At(side), run.worlds[j].At(side), t);
    }
  }

  lemma {:induction false} QuietInTurn(a: Endpoint, b: Endpoint, d: Endpoint, t: Tid)
    requires t in a.receiver.settled.vals && t in b.receiver.settled.vals
    requires QuietAbout(a, b, t) && QuietAbout(b, d, t)
    ensures QuietAbout(a, d, t)
  {
  }

  /** Why a transfer was delivered twice: a whole lifetime lay between the deliveries, or more transfers than the
      cap were delivered within one lifetime, or its sender gave up on it and between the deliveries the failure this
      had left in memory was evicted over the cap. */
  ghost predicate MayRepeat(e: Endpoint, limits: Limits, gaveUp: set<Tid>, first: Delivery, second: Delivery) {
    || second.at >= first.at + limits.ttl
    || WereCrowded(e.receiver.delivered, first, second.at, limits)
    || (first.tid in gaveUp && FailureWasEvicted(e.receiver.forgotten, first, second.at, limits))
  }

  ghost predicate WereCrowded(delivered: seq<Delivery>, first: Delivery, until: int, limits: Limits) {
    exists at :: first.at <= at <= until && |Live(delivered, at, limits)| > limits.cap
  }

  ghost predicate FailureWasEvicted(forgotten: seq<Drop>, first: Delivery, until: int, limits: Limits) {
    exists k :: 0 <= k < |forgotten| && first.at <= forgotten[k].at <= until && EvictedAsFailed(forgotten[k], first.tid, limits)
  }

  /** In every run: a transfer is delivered at most once, except for one of the three reasons the memory is bounded. */
  lemma {:induction false} DeliveredAtMostOnce(run: Run, c: Configs, k: nat, side: Side, i: nat, j: nat)
    requires IsRun(run, c) && k < |run.worlds|
    requires i < j < |run.worlds[k].At(side).receiver.delivered|
    requires run.worlds[k].At(side).receiver.delivered[i].tid == run.worlds[k].At(side).receiver.delivered[j].tid
    ensures var e, peer := run.worlds[k].At(side), run.worlds[k].At(side.Other());
            MayRepeat(e, c.At(side).limits, peer.sender.gaveUp, e.receiver.delivered[i], e.receiver.delivered[j])
  {
    RunIsGood(run, c, k);
    GoodFromBothSides(run.worlds[k], c, side);
    var e, peer := run.worlds[k].At(side), run.worlds[k].At(side.Other());
    var delivered, forgotten, limits := e.receiver.delivered, e.receiver.forgotten, c.At(side).limits;
    assert ForgottenSince(delivered, forgotten, delivered[i], delivered[j].at, limits, peer.sender.gaveUp);
    ForgettingExplainsRepeat(e, limits, peer.sender.gaveUp, delivered[i], delivered[j]);
  }

  lemma {:induction false} ForgettingExplainsRepeat(e: Endpoint, limits: Limits, gaveUp: set<Tid>, first: Delivery, second: Delivery)
    requires ForgottenSince(e.receiver.delivered, e.receiver.forgotten, first, second.at, limits, gaveUp)
    ensures MayRepeat(e, limits, gaveUp, first, second)
  {
    var f :| 0 <= f < |e.receiver.forgotten| && e.receiver.forgotten[f].at <= second.at
             && JustlyForgotten(e.receiver.delivered, e.receiver.forgotten[f], first, limits, gaveUp);
  }

  // ---- every send ends once ------------------------------------------------------------------------

  /** In every run: a send is pending or has ended, never both; it ends once and for good; it is transmitted in full
      at most `max(1, maxAttempts)` times; and it is not remembered as settled while pending. */
  lemma {:induction false} SendEndsOnce(run: Run, c: Configs, i: nat, j: nat, side: Side, t: Tid, ok: bool)
    requires IsRun(run, c) && i <= j < |run.worlds|
    requires HasOutcome(run.worlds[i].At(side).sender.outcomes, t, ok)
    ensures var s := run.worlds[j].At(side).sender;
            && HasOutcome(s.outcomes, t, ok) && !HasOutcome(s.outcomes, t, !ok)
            && t !in s.pending.vals
  {
    HistoryStands(run, c, i, j, side);
    RunIsGood(run, c, j);
    GoodFromBothSides(run.worlds[j], c, side);
    OutcomeStays(run.worlds[i].At(side).sender.outcomes, run.worlds[j].At(side).sender, t, ok);
  }

  lemma {:induction false} OutcomeStays(outcomes: seq<Outcome>, s: Sender, t: Tid, ok: bool)
    requires HasOutcome(outcomes, t, ok) && outcomes <= s.outcomes && EndedOnce(s)
    ensures HasOutcome(s.outcomes, t, ok) && !HasOutcome(s.outcomes, t, !ok) && t !in s.pending.vals
  {
    var i :| 0 <= i < |outcomes| && outcomes[i] == Outcome(t, ok);
    assert s.outcomes[i] == Outcome(t, ok);
  }

  lemma {:induction false} SendIsBounded(run: Run, c: Configs, i: nat, side: Side, t: Tid)
    requires IsRun(run, c) && i < |run.worlds| && t in run.worlds[i].At(side).sender.sent
    ensures var s := run.worlds[i].At(side).sender;
            && (t in s.pending.vals ==> t !in s.settled.vals)
            && (t in s.pending.vals || HasOutcome(s.outcomes, t, true) || HasOutcome(s.outcomes, t, false))
            && t in s.tries && (s.tries[t] <= 1 || s.tries[t] <= c.At(side).maxAttempts)
  {
    RunIsGood(run, c, i);
    GoodFromBothSides(run.worlds[i], c, side);
    var e := run.worlds[i].At(side);
    if t in e.sender.pending.vals {
      PendingIsNotSettled(e.sender, c.At(side), e.now, t);
    }
  }

  /** A resend tick at or after the deadline ends the send, even if the network never opens. */
  lemma {:induction false} DeadlineHolds(run: Run, c: Configs, i: nat, side: Side, t: Tid)
    requires IsRun(run, c) && i < |run.moves| && run.moves[i] == Move(side, Resend(t))
    requires var e := run.worlds[i].At(side);
             t in e.sender.pending.vals && e.now >= e.sender.pending.vals[t].startedAt + c.At(side).deadlineMs
    ensures var s := run.worlds[i + 1].At(side).sender; t !in s.pending.vals && HasOutcome(s.outcomes, t, false)
  {
    var e := MoveIsNext(run, c, i, side, Resend(t));
    DeadlineEndsSend(e.sender, c.At(side), e.now, e.open, t);
  }
}
