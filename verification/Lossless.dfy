/** Liveness where nothing is lost: every send resolves, and its value is delivered once. */
module Lossless {
  import opened Outcomes
  import opened Text
  import opened Json
  import opened Split
  import opened Ordered
  import opened Settlement
  import opened Deliveries
  import opened Packets
  import opened Receiving
  import opened ReceiverSafety
  import opened Sending
  import opened Protocol
  import opened Runs
  import opened Transmitted
  import opened Resending
  import opened Repairing

  function LastWorld(run: Run): World
    requires run.worlds != []
  {
    run.worlds[|run.worlds| - 1]
  }

  /** A run goes on with any move that is allowed where it stands. */
  lemma {:induction false} GoOn(run: Run, c: Configs, m: Move) returns (longer: Run)
    requires IsRun(run, c) && Allowed(LastWorld(run), m)
    ensures IsRun(longer, c) && longer.worlds[0] == run.worlds[0] && LastWorld(longer) == Advance(LastWorld(run), c, m)
    ensures longer.moves == run.moves + [m]
  {
    longer := Run(run.worlds + [Advance(LastWorld(run), c, m)], run.moves + [m]);
    forall i | 0 <= i < |longer.moves| ensures IsStep(longer, c, i) {
      if i < |run.moves| {
        assert IsStep(run, c, i);
      }
    }
  }

  // ---- one transmission arrives ----------------------------------------------------------------------

  lemma {:induction false} NothingToDrop(m: Memory, tids: seq<Tid>, now: int)
    requires forall t :: t in m.vals ==> !Expired(m.vals[t], now)
    ensures DropExpired(m, tids, now) == m
    decreases tids
  {
    if tids != [] {
      NothingToDrop(m, tids[1..], now);
    }
  }

  /** No partial transfers, and nothing in memory that has expired. */
  ghost predicate Idle(r: Receiver, now: int) {
    && Valid(r.settled) && r.states.vals == map[]
    && forall t :: t in r.settled.vals ==> !Expired(r.settled.vals[t], now)
  }

  /** Since it was idle, the receiver has taken in these packets of one transfer. */
  predicate Taking(start: Receiver, r: Receiver, now: int, t: Tid, u: Unit, seen: set<Packet>) {
    && r.delivered == start.delivered && r.settled == start.settled
    && (forall k :: k in r.states.vals ==> k == t)
    && (t in r.states.vals ==> r.states.vals[t].updatedAt == now)
    && Reflects(PartialOf(r, t, now), t, u, seen)
  }

  /** It has delivered the transfer, and is idle again. */
  predicate Took(start: Receiver, r: Receiver, c: Config, now: int, d: Delivery) {
    && r.delivered == start.delivered + [d] && r.states.vals == map[]
    && r.settled == Settle(start.settled, d.tid, true, now, c.limits)
  }

  lemma {:induction false} CleanupKeepsTaking(start: Receiver, r: Receiver, c: Config, now: int, t: Tid, u: Unit, seen: set<Packet>)
    requires Idle(start, now) && Taking(start, r, now, t, u, seen)
    ensures var r' := Cleanup(r, c, now); r'.settled == r.settled && r'.states == r.states && r'.delivered == r.delivered
  {
    NothingToDrop(r.settled, r.settled.order, now);
    if c.partialTtlMs > 0 {
      ExpiryIdle(SweepSettled(r, now), c, now, SweepSettled(r, now).states.order);
    }
  }

  lemma {:induction false} TakesOneMore(start: Receiver, r: Receiver, c: Config, now: int, p: Packet, t: Tid, u: Unit, seen: set<Packet>)
    requires Idle(start, now) && t !in start.settled.vals && Taking(start, r, now, t, u, seen)
    requires Genuine(u.packed, u.data) && IsPacketOf(p, t, u)
    ensures var (r', out) := Receive(r, c, now, p);
            if Covers(See(seen, p), t, u) then Took(start, r', c, now, Delivery(t, u.data, now)) && out == [AckPacket(t)]
            else Taking(start, r', now, t, u, See(seen, p)) && out == []
  {
    var (r', out) := Receive(r, c, now, p);
    CleanupKeepsTaking(start, r, c, now, t, u, seen);
    NobodyElse(r, c, now, p, t);
    PacketArrives(r, c, now, p, t, u, seen);
    if !Covers(See(seen, p), t, u) {
      ReflectsAnyTime(r'.states.vals[t], now, t, u, See(seen, p));
    }
  }

  /** Receiving one transfer only, and settling only this one. */
  lemma {:induction false} NobodyElse(r: Receiver, c: Config, now: int, p: Packet, t: Tid)
    requires IsData(p) && p.tid == t && t !in r.settled.vals && forall k :: k in r.states.vals ==> k == t
    requires var r' := Cleanup(r, c, now); r'.settled == r.settled && r'.states == r.states && r'.delivered == r.delivered
    ensures var r' := Receive(r, c, now, p).0;
            && (forall k :: k in r'.states.vals ==> k == t)
            && (r'.delivered == r.delivered ==> r'.settled == r.settled)
            && (r'.delivered != r.delivered ==> r'.states.vals == map[] && r'.settled == Settle(r.settled, t, true, now, c.limits))
  {
  }

  lemma {:induction false} FirstPacketsDoNotCover(t: Tid, u: Unit, k: nat)
    requires k < |Transmission(t, u.packed)|
    ensures !Covers(SeeAll({}, Transmission(t, u.packed)[..k]), t, u)
  {
    var all := Transmission(t, u.packed);
    TransmissionBelongs(t, u.packed);
    forall i | 0 <= i < k && all[i].ChunkPacket? ensures all[i].intact {
      assert all[i] in all;
    }
    SeeAllIs({}, all[..k], all[|all| - 1]);
    assert all[|all| - 1] == CompletePacket(t) && all[|all| - 1] !in all[..k];
  }

  lemma {:induction false} AllPacketsCover(t: Tid, u: Unit)
    ensures Covers(SeeAll({}, Transmission(t, u.packed)), t, u)
  {
    var all := Transmission(t, u.packed);
    TransmissionBelongs(t, u.packed);
    forall i | 0 <= i < |all| && all[i].ChunkPacket? ensures all[i].intact {
      assert all[i] in all;
    }
    forall i | 0 <= i < |all| ensures all[i] in SeeAll({}, all) {
      SeeAllIs({}, all, all[i]);
    }
  }

  /** The endpoint after the first `k` packets of a transmission. */
  predicate HasTaken(before: Endpoint, e: Endpoint, c: Config, t: Tid, u: Unit, k: nat)
    requires k <= |Transmission(t, u.packed)|
  {
    && e.now == before.now && e.attached && before.wire <= e.wire
    && if k < |Transmission(t, u.packed)| then
         Taking(before.receiver, e.receiver, e.now, t, u, SeeAll({}, Transmission(t, u.packed)[..k]))
       else
         Took(before.receiver, e.receiver, c, e.now, Delivery(t, u.data, e.now)) && AckPacket(t) in e.wire
  }

  lemma {:induction false} SeeOneMore(packets: seq<Packet>, k: nat)
    requires k < |packets|
    ensures SeeAll({}, packets[..k + 1]) == See(SeeAll({}, packets[..k]), packets[k])
  {
    assert packets[..k + 1][..k] == packets[..k] && packets[..k + 1][k] == packets[k];
  }

  /** A packet of the transfer arrives. */
  lemma {:induction false} ArrivalIsTaken(before: Endpoint, e: Endpoint, c: Config, p: Packet, t: Tid, u: Unit, seen: set<Packet>)
    requires e.attached && WellShaped(p) && before.now == e.now && Taking(before.receiver, e.receiver, e.now, t, u, seen)
    requires Idle(before.receiver, before.now) && t !in before.receiver.settled.vals && Genuine(u.packed, u.data) && IsPacketOf(p, t, u)
    ensures var e' := ArriveAt(e, c, p);
            && e'.now == e.now && e'.attached && e.wire <= e'.wire
            && if Covers(See(seen, p), t, u) then
                 Took(before.receiver, e'.receiver, c, e.now, Delivery(t, u.data, e.now)) && AckPacket(t) in e'.wire
               else Taking(before.receiver, e'.receiver, e.now, t, u, See(seen, p))
  {
    TakesOneMore(before.receiver, e.receiver, c, e.now, p, t, u, seen);
  }

  lemma {:induction false} HasTakenMore(before: Endpoint, e: Endpoint, c: Config, t: Tid, u: Unit, k: nat)
    requires k < |Transmission(t, u.packed)| && HasTaken(before, e, c, t, u, k)
    requires Idle(before.receiver, before.now) && t !in before.receiver.settled.vals && Genuine(u.packed, u.data)
    requires var p := Transmission(t, u.packed)[k]; IsPacketOf(p, t, u) && WellShaped(p)
    ensures HasTaken(before, ArriveAt(e, c, Transmission(t, u.packed)[k]), c, t, u, k + 1)
  {
    var all := Transmission(t, u.packed);
    var seen := SeeAll({}, all[..k]);
    ArrivalIsTaken(before, e, c, all[k], t, u, seen);
    SeeOneMore(all, k);
    if k + 1 < |all| {
      FirstPacketsDoNotCover(t, u, k + 1);
    } else {
      assert all[..k + 1] == all;
      AllPacketsCover(t, u);
    }
  }

  lemma {:induction false} TransmissionIsWellShaped(t: Tid, u: Unit)
    requires Genuine(u.packed, u.data)
    ensures forall i :: 0 <= i < |Transmission(t, u.packed)| ==>
              IsPacketOf(Transmission(t, u.packed)[i], t, u) && WellShaped(Transmission(t, u.packed)[i])
  {
    var all := Transmission(t, u.packed);
    TransmissionBelongs(t, u.packed);
    forall i | 0 <= i < |all| ensures IsPacketOf(all[i], t, u) && WellShaped(all[i]) {
      assert all[i] in all;
      if all[i].ChunkPacket? {
        assert ChunkFits(u.packed.refs, all[i].chunk);
      }
    }
  }

  /** All packets of a transmission on the wire arrive, one after another. */
  lemma {:induction false} AllArrive(run: Run, c: Configs, t: Tid, u: Unit) returns (longer: Run)
    requires IsRun(run, c) && Genuine(u.packed, u.data)
    requires forall p :: p in Transmission(t, u.packed) ==> p in LastWorld(run).left.wire
    requires forall i :: 0 <= i < |Transmission(t, u.packed)| ==>
               IsPacketOf(Transmission(t, u.packed)[i], t, u) && WellShaped(Transmission(t, u.packed)[i])
    requires var e := LastWorld(run).right; e.attached && Idle(e.receiver, e.now) && t !in e.receiver.settled.vals
    ensures IsRun(longer, c) && longer.worlds[0] == run.worlds[0] && LastWorld(longer).left == LastWorld(run).left
    ensures var before, e := LastWorld(run).right, LastWorld(longer).right;
            && e.attached && e.now == before.now && AckPacket(t) in e.wire
            && Took(before.receiver, e.receiver, c.right, e.now, Delivery(t, u.data, e.now))
  {
    var all, before := Transmission(t, u.packed), LastWorld(run).right;
    longer := run;
    NothingSeen(t, u, before.now);
    for k := 0 to |all|
      invariant IsRun(longer, c) && longer.worlds[0] == run.worlds[0] && LastWorld(longer).left == LastWorld(run).left
      invariant HasTaken(before, LastWorld(longer).right, c.right, t, u, k)
    {
      HasTakenMore(before, LastWorld(longer).right, c.right, t, u, k);
      longer := GoOn(longer, c, Move(Right, Arrive(all[k])));
    }
  }

  lemma {:induction false} SendStarts(w: World, c: Configs, t: Tid, data: Json, o: Options, ids: ChunkIds) returns (run: Run)
    requires Fresh(w.left) && Fresh(w.right)
    requires WellFormed(data) && data.Node? && Distinct(ids) && SplitJson(data, o, ids).Success?
    ensures IsRun(run, c) && run.worlds[0] == w
    ensures LastWorld(run) == World(SendAt(w.left, c.left, t, Unit(data, SplitJson(data, o, ids).value)), w.right)
  {
    run := GoOn(Run([w], []), c, Move(Left, SendValue(t, data, o, ids)));
  }

  lemma {:induction false} FirstAttemptIsSent(e: Endpoint, c: Config, t: Tid, u: Unit)
    requires Fresh(e) && e.open && c.maxAttempts > 1 && c.deadlineMs > 0
    ensures var e' := SendAt(e, c, t, u);
            && e'.attached && t in e'.sender.pending.vals
            && forall p :: p in Transmission(t, u.packed) ==> p in e'.wire
  {
  }

  lemma {:induction false} AckResolves(run: Run, c: Configs, t: Tid) returns (longer: Run)
    requires IsRun(run, c) && AckPacket(t) in LastWorld(run).right.wire
    requires LastWorld(run).left.attached && t in LastWorld(run).left.sender.pending.vals
    ensures IsRun(longer, c) && longer.worlds[0] == run.worlds[0] && LastWorld(longer).right == LastWorld(run).right
    ensures HasOutcome(LastWorld(longer).left.sender.outcomes, t, true)
  {
    longer := GoOn(run, c, Move(Left, Arrive(AckPacket(t))));
    var outcomes := LastWorld(run).left.sender.outcomes;
    assert LastWorld(longer).left.sender.outcomes[|outcomes|] == Outcome(t, true);
  }

  /** On a closed network the send waits; when the network has opened, a resend tick sends everything. */
  lemma {:induction false} WaitingSendIsSent(run: Run, c: Configs, t: Tid) returns (longer: Run)
    requires IsRun(run, c) && t in LastWorld(run).left.sender.pending.vals && t in LastWorld(run).left.sender.tries
    requires LastWorld(run).left.sender.tries[t] == 0 && c.left.maxAttempts > 1
    requires LastWorld(run).left.now - LastWorld(run).left.sender.pending.vals[t].startedAt < c.left.deadlineMs
    ensures IsRun(longer, c) && longer.worlds[0] == run.worlds[0] && LastWorld(longer).right == LastWorld(run).right
    ensures var before, e := LastWorld(run).left, LastWorld(longer).left;
            && e.attached == before.attached && t in e.sender.pending.vals && t in before.sender.sent
            && forall p :: p in Transmission(t, before.sender.sent[t].packed) ==> p in e.wire
  {
    RunIsGood(run, c, |run.worlds| - 1);
    OpenedSendIsSent(LastWorld(run).left, c.left, t);
    longer := GoOn(run, c, Move(Left, SetOpen(true)));
    longer := GoOn(longer, c, Move(Left, Resend(t)));
  }

  lemma {:induction false} OpenedSendIsSent(e: Endpoint, c: Config, t: Tid)
    requires Orderly(e.sender, c, e.now) && t in e.sender.pending.vals && t in e.sender.tries && e.sender.tries[t] == 0
    requires e.now - e.sender.pending.vals[t].startedAt < c.deadlineMs && c.maxAttempts > 1
    ensures var e' := Next(Next(e, c, SetOpen(true)), c, Resend(t));
            && e'.attached == e.attached && t in e'.sender.pending.vals && t in e.sender.sent
            && forall p :: p in Transmission(t, e.sender.sent[t].packed) ==> p in e'.wire
  {
    ResendTransmits(e.(open := true), c, t);
  }

  /** The value is sent, and all of it is on the wire, at once or after a resend. */
  lemma {:induction false} SendAll(w: World, c: Configs, t: Tid, data: Json, o: Options, ids: ChunkIds) returns (run: Run)
    requires Fresh(w.left) && Fresh(w.right)
    requires WellFormed(data) && data.Node? && Distinct(ids) && SplitJson(data, o, ids).Success?
    requires c.left.maxAttempts > 1 && c.left.deadlineMs > 0
    ensures IsRun(run, c) && run.worlds[0] == w && LastWorld(run).right == w.right
    ensures LastWorld(run).left.attached && t in LastWorld(run).left.sender.pending.vals
    ensures forall p :: p in Transmission(t, SplitJson(data, o, ids).value) ==> p in LastWorld(run).left.wire
  {
    var u := Unit(data, SplitJson(data, o, ids).value);
    run := SendStarts(w, c, t, data, o, ids);
    if w.left.open {
      FirstAttemptIsSent(w.left, c.left, t, u);
    } else {
      SendTransmits(w.left, c.left, t, data, o, ids);
      run := WaitingSendIsSent(run, c, t);
    }
  }

  /** For every value and every way of splitting it: from two fresh endpoints there is a run in which the send resolves
      and the value is delivered, once. The network need only be lossless, and open at some time, and more than one attempt
      allowed. */
  lemma {:induction false} LosslessSendResolves(w: World, c: Configs, t: Tid, data: Json, o: Options, ids: ChunkIds)
    returns (run: Run)
    requires Fresh(w.left) && Fresh(w.right)
    requires WellFormed(data) && data.Node? && Distinct(ids) && SplitJson(data, o, ids).Success?
    requires c.left.maxAttempts > 1 && c.left.deadlineMs > 0
    ensures IsRun(run, c) && run.worlds[0] == w
    ensures HasOutcome(LastWorld(run).left.sender.outcomes, t, true)
    ensures LastWorld(run).right.receiver.delivered == [Delivery(t, data, w.right.now)]
  {
    var u := Unit(data, SplitJson(data, o, ids).value);
    SplitIsGenuine(data, o, ids, u.packed);
    TransmissionIsWellShaped(t, u);
    run := SendAll(w, c, t, data, o, ids);
    run := AllArrive(run, c, t, u);
    run := AckResolves(run, c, t);
  }

  ghost predicate MayResolve(w: World, c: Configs, t: Tid) {
    exists run :: IsRun(run, c) && run.worlds[0] == w && HasOutcome(LastWorld(run).left.sender.outcomes, t, true)
  }

  /** Sending between fresh endpoints can succeed at all if and only if more than one attempt is allowed. */
  lemma {:induction false} WhenSendsCanResolve(w: World, c: Configs, t: Tid, data: Json, o: Options, ids: ChunkIds)
    requires Fresh(w.left) && Fresh(w.right) && c.left.deadlineMs > 0
    requires WellFormed(data) && data.Node? && Distinct(ids) && SplitJson(data, o, ids).Success?
    ensures MayResolve(w, c, t) <==> c.left.maxAttempts > 1
  {
    if c.left.maxAttempts > 1 {
      var run := LosslessSendResolves(w, c, t, data, o, ids);
    } else if MayResolve(w, c, t) {
      var run :| IsRun(run, c) && run.worlds[0] == w && HasOutcome(LastWorld(run).left.sender.outcomes, t, true);
      OneAttemptNeverResolves(run, c, |run.worlds| - 1, Left);
    }
  }
}
