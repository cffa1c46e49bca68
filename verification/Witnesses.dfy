/** Runs that show the limits of the guarantees: a transfer delivered twice, for each of the reasons there are, and a
    rejected send that was delivered. */
module Witnesses {
  import opened Outcomes
  import opened Text
  import opened Json
  import opened Split
  import opened Ordered
  import opened Settlement
  import opened Deliveries
  import opened Packets
  import opened Receiving
  import opened ReceiverSafety
  import opened Sending
  import opened Protocol
  import opened Runs
  import opened Transmitted
  import opened Repairing
  import opened Lossless

  // ---- sending, and giving up --------------------------------------------------------------------

  /** A value and a way to split it. */
  ghost predicate IsSendable(data: Json, o: Options, ids: ChunkIds) {
    WellFormed(data) && data.Node? && Distinct(ids) && SplitJson(data, o, ids).Success?
  }

  function UnitOf(data: Json, o: Options, ids: ChunkIds): Unit
    requires SplitJson(data, o, ids).Success?
  {
    Unit(data, SplitJson(data, o, ids).value)
  }

  ghost predicate IsSent(e: Endpoint, t: Tid, u: Unit) {
    t in e.sender.sent && e.sender.sent[t] == u && AllOnWire(e.wire, t, u.packed)
  }

  /** Sending on an open network puts everything on the wire at once. */
  lemma {:induction false} SendingIsOnTheWire(e: Endpoint, c: Config, t: Tid, u: Unit)
    requires e.open && c.deadlineMs > 0
    ensures var e' := SendAt(e, c, t, u);
            && e'.open && e'.now == e.now && e.wire <= e'.wire && IsSent(e', t, u)
            && e'.sender.sent == e.sender.sent[t := u]
            && (t in e'.sender.pending.vals ==> e'.sender.pending.vals[t].startedAt == e.now)
            && (t !in e'.sender.pending.vals ==> HasOutcome(e'.sender.outcomes, t, false) && ErrorPacket(t) in e'.wire)
            && (c.maxAttempts > 1 ==> e'.sender.gaveUp == e.sender.gaveUp)
  {
    var all := Transmission(t, u.packed);
    var step := Send(e.sender, c, e.now, e.open, t, u);
    assert forall p :: p in all ==> p in step.1;
    if t !in step.0.pending.vals {
      assert step.0.outcomes[|step.0.outcomes| - 1] == Outcome(t, false);
      assert step.1[|step.1| - 1] == ErrorPacket(t);
    }
  }

  /** The left endpoint sends; the right one does not move. */
  lemma {:induction false} SendOne(run: Run, c: Configs, t: Tid, data: Json, o: Options, ids: ChunkIds) returns (longer: Run)
    requires IsRun(run, c) && LastWorld(run).left.open && c.left.deadlineMs > 0
    requires t !in LastWorld(run).left.sender.sent && IsSendable(data, o, ids)
    ensures IsRun(longer, c) && longer.worlds[0] == run.worlds[0]
    ensures LastWorld(longer) == LastWorld(run).(left := SendAt(LastWorld(run).left, c.left, t, UnitOf(data, o, ids)))
  {
    longer := GoOn(run, c, Move(Left, SendValue(t, data, o, ids)));
  }

  /** A send that can still be given up, or has been. */
  ghost predicate MayGiveUp(e: Endpoint, t: Tid) {
    t in e.sender.pending.vals || (HasOutcome(e.sender.outcomes, t, false) && ErrorPacket(t) in e.wire)
  }

  /** The send has been rejected, and the other side may hear so. */
  ghost predicate HasGivenUp(e: Endpoint, t: Tid) {
    HasOutcome(e.sender.outcomes, t, false) && ErrorPacket(t) in e.wire
  }

  /** What giving up leaves as it was. */
  ghost predicate StillSending(e: Endpoint, e': Endpoint) {
    e'.open == e.open && e'.sender.sent == e.sender.sent && e.wire <= e'.wire
  }

  lemma {:induction false} PastDeadline(e: Endpoint, c: Config, t: Tid)
    requires t in e.sender.pending.vals && Overdue(e.sender.pending.vals[t], c, e.now)
    ensures HasGivenUp(ResendAt(e, c, t), t) && StillSending(e, ResendAt(e, c, t))
  {
    var step := ResendTick(e.sender, c, e.now, e.open, t);
    assert step.0.outcomes[|step.0.outcomes| - 1] == Outcome(t, false);
    assert step.1 == [ErrorPacket(t)] && step.1[0] == ErrorPacket(t);
  }

  /** The clock of the left endpoint goes on to the deadline of the send, and its resend timer fires. */
  lemma {:induction false} GiveUp(run: Run, c: Configs, t: Tid) returns (longer: Run)
    requires IsRun(run, c) && MayGiveUp(LastWorld(run).left, t)
    ensures IsRun(longer, c) && longer.worlds[0] == run.worlds[0] && LastWorld(longer).right == LastWorld(run).right
    ensures HasGivenUp(LastWorld(longer).left, t) && StillSending(LastWorld(run).left, LastWorld(longer).left)
  {
    longer := run;
    var e := LastWorld(run).left;
    if t in e.sender.pending.vals {
      var due := e.sender.pending.vals[t].startedAt + c.left.deadlineMs;
      longer := GoOn(longer, c, Move(Left, Tick(if due > e.now then due else e.now)));
      PastDeadline(LastWorld(longer).left, c.left, t);
      longer := GoOn(longer, c, Move(Left, Resend(t)));
    }
  }

  // ---- delivering ----------------------------------------------------------------------------------

  /** Everything sent of the transfer arrives. */
  lemma {:induction false} DeliverOne(run: Run, c: Configs, t: Tid, data: Json, o: Options, ids: ChunkIds) returns (longer: Run)
    requires IsRun(run, c) && IsSendable(data, o, ids) && IsSent(LastWorld(run).left, t, UnitOf(data, o, ids))
    requires var e := LastWorld(run).right; e.attached && Idle(e.receiver, e.now) && t !in e.receiver.settled.vals
    ensures IsRun(longer, c) && longer.worlds[0] == run.worlds[0] && LastWorld(longer).left == LastWorld(run).left
    ensures var before, e := LastWorld(run).right, LastWorld(longer).right;
            e.attached && e.now == before.now && Took(before.receiver, e.receiver, c.right, e.now, Delivery(t, data, e.now))
  {
    var u := UnitOf(data, o, ids);
    SplitIsGenuine(data, o, ids, u.packed);
    TransmissionIsWellShaped(t, u);
    longer := AllArrive(run, c, t, u);
  }

  lemma {:induction false} StaysIdle(start: Receiver, r: Receiver, c: Config, now: int, d: Delivery)
    requires Idle(start, now) && Took(start, r, c, now, d) && c.limits.ttl > 0
    ensures Idle(r, now)
  {
    SettleIsValid(start.settled, d.tid, true, now, c.limits);
    SettleKeys(start.settled, d.tid, true, now, c.limits);
  }

  /** From two fresh endpoints: the value is sent, and delivered. */
  lemma {:induction false} SendAndDeliver(w: World, c: Configs, t: Tid, data: Json, o: Options, ids: ChunkIds) returns (run: Run)
    requires Fresh(w.left) && Fresh(w.right) && w.left.open && c.left.deadlineMs > 0 && IsSendable(data, o, ids)
    ensures IsRun(run, c) && run.worlds[0] == w
    ensures IsSent(LastWorld(run).left, t, UnitOf(data, o, ids)) && MayGiveUp(LastWorld(run).left, t)
    ensures LastWorld(run).left.open && LastWorld(run).left.sender.sent == map[t := UnitOf(data, o, ids)]
    ensures c.left.maxAttempts > 1 ==> LastWorld(run).left.sender.gaveUp == {}
    ensures var e := LastWorld(run).right;
            && e.attached && e.now == w.right.now
            && Took(FreshReceiver(), e.receiver, c.right, e.now, Delivery(t, data, e.now))
  {
    SendingIsOnTheWire(w.left, c.left, t, UnitOf(data, o, ids));
    run := SendOne(Run([w], []), c, t, data, o, ids);
    run := DeliverOne(run, c, t, data, o, ids);
  }

  // ---- a rejected send that was delivered ----------------------------------------------------------

  /** For every value: the whole transmission arrives, no acknowledgement does, and the send is rejected at its deadline. */
  lemma {:induction false} RejectedMayBeDelivered(w: World, c: Configs, t: Tid, data: Json, o: Options, ids: ChunkIds) returns (run: Run)
    requires Fresh(w.left) && Fresh(w.right) && w.left.open && c.left.deadlineMs > 0 && IsSendable(data, o, ids)
    ensures IsRun(run, c) && run.worlds[0] == w
    ensures HasOutcome(LastWorld(run).left.sender.outcomes, t, false)
    ensures LastWorld(run).right.receiver.delivered == [Delivery(t, data, w.right.now)]
  {
    run := SendAndDeliver(w, c, t, data, o, ids);
    run := GiveUp(run, c, t);
  }

  /** The reasons there are, where the run stands. */
  lemma {:induction false} WhyRepeated(run: Run, c: Configs, i: nat, j: nat)
    requires IsRun(run, c)
    requires var delivered := LastWorld(run).right.receiver.delivered; i < j < |delivered| && delivered[i].tid == delivered[j].tid
    ensures var e := LastWorld(run).right;
            MayRepeat(e, c.right.limits, LastWorld(run).left.sender.gaveUp, e.receiver.delivered[i], e.receiver.delivered[j])
  {
    DeliveredAtMostOnce(run, c, |run.worlds| - 1, Right, i, j);
  }

  // ---- delivered twice: a lifetime apart -----------------------------------------------------------

  lemma {:induction false} OneIsNoCrowd(delivered: seq<Delivery>, first: Delivery, until: int, limits: Limits)
    requires limits.cap >= 1 && forall i :: 0 <= i < |delivered| ==> delivered[i].tid == first.tid
    ensures !WereCrowded(delivered, first, until, limits)
  {
    forall at ensures |Live(delivered, at, limits)| <= 1 {
      SubsetSize(Live(delivered, at, limits), {first.tid});
    }
  }

  /** When everything in memory has expired, cleaning up empties it. */
  lemma {:induction false} CleaningUpForgets(e: Endpoint, c: Config)
    requires Valid(e.receiver.settled) && e.receiver.states.vals == map[]
    requires forall t :: t in e.receiver.settled.vals ==> Expired(e.receiver.settled.vals[t], e.now)
    ensures var r := CleanUpAt(e, c).receiver;
            Idle(r, e.now) && r.settled.vals == map[] && r.delivered == e.receiver.delivered
  {
    SweepTtlFacts(e.receiver.settled, e.now);
    if c.partialTtlMs > 0 {
      ExpiryIdle(SweepSettled(e.receiver, e.now), c, e.now, SweepSettled(e.receiver, e.now).states.order);
    }
  }

  /** One lifetime later, everything is cleaned up, and the packets arrive once more. */
  lemma {:induction false} Forget(run: Run, c: Configs, t: Tid, at: int) returns (longer: Run)
    requires IsRun(run, c) && c.right.limits.ttl >= 0
    requires var e := LastWorld(run).right;
             && e.attached && e.now == at && e.receiver.states.vals == map[]
             && e.receiver.settled == Settle(Empty(), t, true, at, c.right.limits)
    ensures IsRun(longer, c) && longer.worlds[0] == run.worlds[0] && LastWorld(longer).left == LastWorld(run).left
    ensures var before, e := LastWorld(run).right, LastWorld(longer).right;
            && e.attached && e.now == at + c.right.limits.ttl && e.receiver.delivered == before.receiver.delivered
            && Idle(e.receiver, e.now) && e.receiver.settled.vals == map[]
  {
    SettleIsValid(Empty(), t, true, at, c.right.limits);
    SettleKeys(Empty(), t, true, at, c.right.limits);
    longer := GoOn(run, c, Move(Right, Tick(at + c.right.limits.ttl)));
    CleaningUpForgets(LastWorld(longer).right, c.right);
    longer := GoOn(longer, c, Move(Right, CleanUp));
  }

  lemma {:induction false} DeliverAndForget(w: World, c: Configs, t: Tid, data: Json, o: Options, ids: ChunkIds) returns (run: Run)
    requires Fresh(w.left) && Fresh(w.right) && w.left.open && c.left.deadlineMs > 0 && IsSendable(data, o, ids)
    requires c.right.limits.ttl >= 0
    ensures IsRun(run, c) && run.worlds[0] == w
    ensures IsSent(LastWorld(run).left, t, UnitOf(data, o, ids))
    ensures c.left.maxAttempts > 1 ==> LastWorld(run).left.sender.gaveUp == {}
    ensures var e := LastWorld(run).right;
            && e.attached && e.now == w.right.now + c.right.limits.ttl && Idle(e.receiver, e.now)
            && e.receiver.settled.vals == map[] && e.receiver.delivered == [Delivery(t, data, w.right.now)]
  {
    run := SendAndDeliver(w, c, t, data, o, ids);
    run := Forget(run, c, t, w.right.now);
  }

  /** For every value: delivered, forgotten after exactly one lifetime, and delivered again; with room in memory, and a
      sender that has not given up. */
  lemma {:induction false} RepeatsAfterLifetime(w: World, c: Configs, t: Tid, data: Json, o: Options, ids: ChunkIds) returns (run: Run)
    requires Fresh(w.left) && Fresh(w.right) && w.left.open && c.left.deadlineMs > 0 && IsSendable(data, o, ids)
    requires c.right.limits.ttl >= 0
    ensures IsRun(run, c) && run.worlds[0] == w
    ensures var limits, delivered := c.right.limits, LastWorld(run).right.receiver.delivered;
            var first, second := Delivery(t, data, w.right.now), Delivery(t, data, w.right.now + limits.ttl);
            && delivered == [first, second]
            && (limits.cap >= 1 ==> !WereCrowded(delivered, first, second.at, limits))
    ensures c.left.maxAttempts > 1 ==> LastWorld(run).left.sender.gaveUp == {}
  {
    run := DeliverAndForget(w, c, t, data, o, ids);
    run := DeliverOne(run, c, t, data, o, ids);
    TwiceTheSame(LastWorld(run).right.receiver.delivered, t, data, w.right.now, w.right.now + c.right.limits.ttl, c.right.limits);
  }

  lemma {:induction false} TwiceTheSame(delivered: seq<Delivery>, t: Tid, data: Json, at: int, later: int, limits: Limits)
    requires delivered == [Delivery(t, data, at)] + [Delivery(t, data, later)]
    ensures delivered == [Delivery(t, data, at), Delivery(t, data, later)]
    ensures limits.cap >= 1 ==> !WereCrowded(delivered, Delivery(t, data, at), later, limits)
  {
    if limits.cap >= 1 {
      OneIsNoCrowd(delivered, Delivery(t, data, at), later, limits);
    }
  }

  // ---- delivered twice: crowded out ----------------------------------------------------------------

  /** The memory holds these transfers, settled in this order and all in the same way. */
  ghost predicate Filled(m: Memory, tids: seq<Tid>, e: Entry) {
    Valid(m) && m.order == tids && forall t :: t in m.vals ==> m.vals[t] == e
  }

  lemma {:induction false} FillOneMore(m: Memory, tids: seq<Tid>, t: Tid, ok: bool, now: int, limits: Limits)
    requires Filled(m, tids, NewEntry(ok, now, limits)) && t !in tids
    ensures Filled(Put(m, t, NewEntry(ok, now, limits)), tids + [t], NewEntry(ok, now, limits))
    ensures |tids| < limits.cap ==> Settle(m, t, ok, now, limits) == Put(m, t, NewEntry(ok, now, limits))
  {
    PutIsValid(m, t, NewEntry(ok, now, limits));
    SizeIsOrder(Put(m, t, NewEntry(ok, now, limits)));
  }

  lemma {:induction false} AllAlike(m: Memory, tids: seq<Tid>, e: Entry)
    requires forall t :: t in tids ==> t in m.vals && m.vals[t] == e
    ensures e.ok ==> FirstFail(m, tids) == |tids|
    ensures !e.ok && tids != [] ==> FirstFail(m, tids) == 0
  {
    if tids != [] {
      AllAlike(m, tids[1..], e);
    }
  }

  /** One more than the cap: the first one goes, be they all successes or all failures. */
  lemma {:induction false} FirstGoes(m: Memory, tids: seq<Tid>, t: Tid, ok: bool, now: int, limits: Limits)
    requires Filled(m, tids, NewEntry(ok, now, limits)) && t !in tids && |tids| == limits.cap && limits.ttl > 0
    ensures (tids + [t])[0] !in Settle(m, t, ok, now, limits).vals
  {
    var p := Put(m, t, NewEntry(ok, now, limits));
    FillOneMore(m, tids, t, ok, now, limits);
    SizeIsOrder(p);
    AllAlike(p, p.order, NewEntry(ok, now, limits));
    assert Victim(p, now) == p.order[0];
    EvictionOnlyRemoves(Delete(p, p.order[0]), limits, now);
  }

  function DeliveriesOf(tids: seq<Tid>, data: Json, at: int): seq<Delivery> {
    if tids == [] then [] else DeliveriesOf(tids[..|tids| - 1], data, at) + [Delivery(tids[|tids| - 1], data, at)]
  }

  ghost predicate AllDistinct(tids: seq<Tid>) { forall i, j :: 0 <= i < j < |tids| ==> tids[i] != tids[j] }

  lemma {:induction false} OneMoreOf(tids: seq<Tid>, k: nat)
    requires AllDistinct(tids) && k < |tids|
    ensures tids[k] !in tids[..k] && tids[..k + 1] == tids[..k] + [tids[k]]
  {
  }

  /** The left endpoint has sent the first `k` transfers and no later one. */
  ghost predicate HasSent(e: Endpoint, tids: seq<Tid>, k: nat, u: Unit) {
    && e.open
    && (forall i :: k <= i < |tids| ==> tids[i] !in e.sender.sent)
    && (0 < k <= |tids| ==> IsSent(e, tids[0], u))
  }

  lemma {:induction false} SendsOneMore(e: Endpoint, c: Config, tids: seq<Tid>, k: nat, u: Unit)
    requires HasSent(e, tids, k, u) && k < |tids| && AllDistinct(tids) && c.deadlineMs > 0
    ensures HasSent(SendAt(e, c, tids[k], u), tids, k + 1, u) && IsSent(SendAt(e, c, tids[k], u), tids[k], u)
    ensures c.maxAttempts > 1 ==> SendAt(e, c, tids[k], u).sender.gaveUp == e.sender.gaveUp
  {
    SendingIsOnTheWire(e, c, tids[k], u);
  }

  /** The next transfer is sent and delivered. */
  lemma {:induction false} DeliverNext(run: Run, c: Configs, tids: seq<Tid>, k: nat, data: Json, o: Options, ids: ChunkIds) returns (longer: Run)
    requires IsRun(run, c) && IsSendable(data, o, ids) && c.left.deadlineMs > 0 && AllDistinct(tids) && k < |tids|
    requires HasSent(LastWorld(run).left, tids, k, UnitOf(data, o, ids))
    requires var e := LastWorld(run).right; e.attached && Idle(e.receiver, e.now) && tids[k] !in e.receiver.settled.vals
    ensures IsRun(longer, c) && longer.worlds[0] == run.worlds[0]
    ensures HasSent(LastWorld(longer).left, tids, k + 1, UnitOf(data, o, ids))
    ensures c.left.maxAttempts > 1 ==> LastWorld(longer).left.sender.gaveUp == LastWorld(run).left.sender.gaveUp
    ensures var before, e := LastWorld(run).right, LastWorld(longer).right;
            e.attached && e.now == before.now && Took(before.receiver, e.receiver, c.right, e.now, Delivery(tids[k], data, e.now))
  {
    SendsOneMore(LastWorld(run).left, c.left, tids, k, UnitOf(data, o, ids));
    longer := SendOne(run, c, tids[k], data, o, ids);
    longer := DeliverOne(longer, c, tids[k], data, o, ids);
  }

  /** The right endpoint after the first `k` deliveries, with room for all of them. */
  ghost predicate Holds(e: Endpoint, c: Config, tids: seq<Tid>, data: Json, at: int) {
    && e.attached && e.now == at && e.receiver.states.vals == map[]
    && Filled(e.receiver.settled, tids, NewEntry(true, at, c.limits))
    && e.receiver.delivered == DeliveriesOf(tids, data, at)
  }

  lemma {:induction false} HoldsOneMore(e: Endpoint, e': Endpoint, c: Config, tids: seq<Tid>, t: Tid, data: Json, at: int)
    requires Holds(e, c, tids, data, at) && t !in tids && |tids| < c.limits.cap
    requires e'.attached && e'.now == at && Took(e.receiver, e'.receiver, c, at, Delivery(t, data, at))
    ensures Holds(e', c, tids + [t], data, at)
  {
    FillOneMore(e.receiver.settled, tids, t, true, at, c.limits);
    assert (tids + [t])[..|tids|] == tids;
  }

  lemma {:induction false} FillNext(run: Run, c: Configs, tids: seq<Tid>, k: nat, data: Json, o: Options, ids: ChunkIds, at: int)
    returns (longer: Run)
    requires IsRun(run, c) && IsSendable(data, o, ids) && c.left.deadlineMs > 0 && AllDistinct(tids)
    requires k < |tids| && k < c.right.limits.cap && c.right.limits.ttl > 0
    requires HasSent(LastWorld(run).left, tids, k, UnitOf(data, o, ids))
    requires Holds(LastWorld(run).right, c.right, tids[..k], data, at)
    ensures IsRun(longer, c) && longer.worlds[0] == run.worlds[0]
    ensures HasSent(LastWorld(longer).left, tids, k + 1, UnitOf(data, o, ids))
    ensures c.left.maxAttempts > 1 ==> LastWorld(longer).left.sender.gaveUp == LastWorld(run).left.sender.gaveUp
    ensures Holds(LastWorld(longer).right, c.right, tids[..k + 1], data, at)
  {
    longer := DeliverNext(run, c, tids, k, data, o, ids);
    OneMoreOf(tids, k);
    HoldsOneMore(LastWorld(run).right, LastWorld(longer).right, c.right, tids[..k], tids[k], data, at);
  }

  /** As many transfers as the memory has room for are delivered, one after another. */
  lemma {:induction false} FillUp(w: World, c: Configs, tids: seq<Tid>, n: nat, data: Json, o: Options, ids: ChunkIds) returns (run: Run)
    requires Fresh(w.left) && Fresh(w.right) && w.left.open && c.left.deadlineMs > 0 && IsSendable(data, o, ids)
    requires c.right.limits.ttl > 0 && n <= |tids| && n <= c.right.limits.cap && AllDistinct(tids)
    ensures IsRun(run, c) && run.worlds[0] == w
    ensures HasSent(LastWorld(run).left, tids, n, UnitOf(data, o, ids))
    ensures Holds(LastWorld(run).right, c.right, tids[..n], data, w.right.now)
    ensures c.left.maxAttempts > 1 ==> LastWorld(run).left.sender.gaveUp == {}
    decreases n
  {
    if n == 0 {
      run := Run([w], []);
    } else {
      run := FillUp(w, c, tids, n - 1, data, o, ids);
      run := FillNext(run, c, tids, n - 1, data, o, ids, w.right.now);
    }
  }

  /** For every value and every cap: as many other transfers as the memory has room for are delivered after the first one,
      all at one time, and then the first one is delivered again; its sender has not given up. */
  lemma {:induction false} RepeatsWhenCrowded(w: World, c: Configs, tids: seq<Tid>, data: Json, o: Options, ids: ChunkIds) returns (run: Run)
    requires Fresh(w.left) && Fresh(w.right) && w.left.open && c.left.deadlineMs > 0 && IsSendable(data, o, ids)
    requires c.right.limits.ttl > 0 && AllDistinct(tids) && |tids| > 0 && |tids| - 1 == c.right.limits.cap
    ensures IsRun(run, c) && run.worlds[0] == w
    ensures LastWorld(run).right.receiver.delivered
         == DeliveriesOf(tids, data, w.right.now) + [Delivery(tids[0], data, w.right.now)]
    ensures c.left.maxAttempts > 1 ==>
              && LastWorld(run).left.sender.gaveUp == {}
              && WereCrowded(LastWorld(run).right.receiver.delivered, Delivery(tids[0], data, w.right.now), w.right.now, c.right.limits)
  {
    run := CrowdOut(w, c, tids, data, o, ids);
    run := DeliverOne(run, c, tids[0], data, o, ids);
    FirstAndLast(tids, data, w.right.now);
    WhyRepeated(run, c, 0, |tids|);
  }

  lemma {:induction false} FirstAndLast(tids: seq<Tid>, data: Json, at: int)
    requires |tids| > 0
    ensures |DeliveriesOf(tids, data, at)| == |tids| && DeliveriesOf(tids, data, at)[0] == Delivery(tids[0], data, at)
  {
    if |tids| > 1 {
      FirstAndLast(tids[..|tids| - 1], data, at);
    }
  }

  /** The memory is filled, and one more transfer drives out the first. */
  lemma {:induction false} CrowdOut(w: World, c: Configs, tids: seq<Tid>, data: Json, o: Options, ids: ChunkIds) returns (run: Run)
    requires Fresh(w.left) && Fresh(w.right) && w.left.open && c.left.deadlineMs > 0 && IsSendable(data, o, ids)
    requires c.right.limits.ttl > 0 && AllDistinct(tids) && |tids| > 0 && |tids| - 1 == c.right.limits.cap
    ensures IsRun(run, c) && run.worlds[0] == w
    ensures HasSent(LastWorld(run).left, tids, |tids|, UnitOf(data, o, ids))
    ensures c.left.maxAttempts > 1 ==> LastWorld(run).left.sender.gaveUp == {}
    ensures var e := LastWorld(run).right;
            && e.attached && e.now == w.right.now && Idle(e.receiver, e.now) && tids[0] !in e.receiver.settled.vals
            && e.receiver.delivered == DeliveriesOf(tids, data, w.right.now)
  {
    var cap := |tids| - 1;
    run := FillUp(w, c, tids, cap, data, o, ids);
    ghost var full := LastWorld(run).right;
    OneMoreOf(tids, cap);
    run := DeliverNext(run, c, tids, cap, data, o, ids);
    FirstIsCrowdedOut(full, LastWorld(run).right, c.right, tids, data, w.right.now);
  }

  lemma {:induction false} FirstIsCrowdedOut(full: Endpoint, e: Endpoint, c: Config, tids: seq<Tid>, data: Json, at: int)
    requires AllDistinct(tids) && |tids| > 0 && |tids| - 1 == c.limits.cap && c.limits.ttl > 0
    requires Holds(full, c, tids[..c.limits.cap], data, at)
    requires Took(full.receiver, e.receiver, c, at, Delivery(tids[c.limits.cap], data, at))
    ensures Idle(e.receiver, at) && tids[0] !in e.receiver.settled.vals && e.receiver.delivered == DeliveriesOf(tids, data, at)
  {
    var cap := c.limits.cap;
    OneMoreOf(tids, cap);
    assert tids[..cap + 1] == tids;
    FirstGoes(full.receiver.settled, tids[..cap], tids[cap], true, at, c.limits);
    StaysIdle(full.receiver, e.receiver, c, at, Delivery(tids[cap], data, at));
  }

  // ---- delivered twice: given up -------------------------------------------------------------------

  /** The error packet of a transfer arrives: its entry in memory is a failure now. */
  lemma {:induction false} ErrorArrives(run: Run, c: Configs, t: Tid) returns (longer: Run)
    requires IsRun(run, c) && ErrorPacket(t) in LastWorld(run).left.wire && LastWorld(run).right.attached
    ensures IsRun(longer, c) && longer.worlds[0] == run.worlds[0] && LastWorld(longer).left == LastWorld(run).left
    ensures var before, e := LastWorld(run).right, LastWorld(longer).right;
            e.attached && e.now == before.now && e.receiver == Abandon(before.receiver, c.right, before.now, t)
  {
    longer := GoOn(run, c, Move(Right, Arrive(ErrorPacket(t))));
  }

  /** The send is given up, and the other side hears so. */
  lemma {:induction false} FailOne(run: Run, c: Configs, t: Tid) returns (longer: Run)
    requires IsRun(run, c) && MayGiveUp(LastWorld(run).left, t) && LastWorld(run).right.attached
    ensures IsRun(longer, c) && longer.worlds[0] == run.worlds[0]
    ensures HasGivenUp(LastWorld(longer).left, t) && StillSending(LastWorld(run).left, LastWorld(longer).left)
    ensures var before, e := LastWorld(run).right, LastWorld(longer).right;
            e.attached && e.now == before.now && e.receiver == Abandon(before.receiver, c.right, before.now, t)
  {
    longer := GiveUp(run, c, t);
    longer := ErrorArrives(longer, c, t);
  }

  /** The next transfer is sent and given up, and the other side hears only of its failure. */
  lemma {:induction false} FailNext(run: Run, c: Configs, tids: seq<Tid>, k: nat, data: Json, o: Options, ids: ChunkIds) returns (longer: Run)
    requires IsRun(run, c) && IsSendable(data, o, ids) && c.left.deadlineMs > 0 && AllDistinct(tids) && k < |tids|
    requires HasSent(LastWorld(run).left, tids, k, UnitOf(data, o, ids)) && LastWorld(run).right.attached
    ensures IsRun(longer, c) && longer.worlds[0] == run.worlds[0]
    ensures HasSent(LastWorld(longer).left, tids, k + 1, UnitOf(data, o, ids))
    ensures var before, e := LastWorld(run).right, LastWorld(longer).right;
            e.attached && e.now == before.now && e.receiver == Abandon(before.receiver, c.right, before.now, tids[k])
  {
    var u := UnitOf(data, o, ids);
    SendsOneMore(LastWorld(run).left, c.left, tids, k, u);
    SendingIsOnTheWire(LastWorld(run).left, c.left, tids[k], u);
    longer := SendOne(run, c, tids[k], data, o, ids);
    longer := FailOne(longer, c, tids[k]);
  }

  /** The right endpoint after one delivery and `k` failures, the first of them of what it delivered. */
  ghost predicate Failed(e: Endpoint, c: Config, tids: seq<Tid>, delivered: seq<Delivery>, at: int) {
    && e.attached && e.now == at && e.receiver.states.vals == map[] && e.receiver.delivered == delivered
    && Filled(e.receiver.settled, tids, NewEntry(false, at, c.limits))
  }

  /** The failure of a delivered transfer takes the place of its success. */
  lemma {:induction false} SuccessBecomesFailure(t: Tid, at: int, limits: Limits)
    requires limits.cap >= 1
    ensures var m := Settle(Settle(Empty(), t, true, at, limits), t, false, at, limits);
            Filled(m, [t], NewEntry(false, at, limits))
  {
    var none: Memory := Empty();
    var failed: Memory := Put(Put(none, t, NewEntry(true, at, limits)), t, NewEntry(false, at, limits));
    SettleFirst(t, at, limits);
    assert failed.vals == map[t := NewEntry(false, at, limits)];
    PutIsValid(none, t, NewEntry(true, at, limits));
    PutIsValid(Put(none, t, NewEntry(true, at, limits)), t, NewEntry(false, at, limits));
  }

  lemma {:induction false} DeliverAndFail(w: World, c: Configs, tids: seq<Tid>, data: Json, o: Options, ids: ChunkIds) returns (run: Run)
    requires Fresh(w.left) && Fresh(w.right) && w.left.open && c.left.deadlineMs > 0 && IsSendable(data, o, ids)
    requires AllDistinct(tids) && |tids| > 0 && c.right.limits.cap >= 1
    ensures IsRun(run, c) && run.worlds[0] == w
    ensures HasSent(LastWorld(run).left, tids, 1, UnitOf(data, o, ids)) && HasOutcome(LastWorld(run).left.sender.outcomes, tids[0], false)
    ensures Failed(LastWorld(run).right, c.right, [tids[0]], [Delivery(tids[0], data, w.right.now)], w.right.now)
  {
    run := SendAndDeliver(w, c, tids[0], data, o, ids);
    run := FailOne(run, c, tids[0]);
    SuccessBecomesFailure(tids[0], w.right.now, c.right.limits);
  }

  lemma {:induction false} FailsOneMore(e: Endpoint, e': Endpoint, c: Config, tids: seq<Tid>, t: Tid, delivered: seq<Delivery>, at: int)
    requires Failed(e, c, tids, delivered, at) && t !in tids && |tids| < c.limits.cap
    requires e'.attached && e'.now == at && e'.receiver == Abandon(e.receiver, c, at, t)
    ensures Failed(e', c, tids + [t], delivered, at)
  {
    FillOneMore(e.receiver.settled, tids, t, false, at, c.limits);
  }

  lemma {:induction false} FillNextFailure(run: Run, c: Configs, tids: seq<Tid>, k: nat, data: Json, o: Options, ids: ChunkIds,
                                           delivered: seq<Delivery>, at: int) returns (longer: Run)
    requires IsRun(run, c) && IsSendable(data, o, ids) && c.left.deadlineMs > 0 && AllDistinct(tids)
    requires k < |tids| && k < c.right.limits.cap
    requires HasSent(LastWorld(run).left, tids, k, UnitOf(data, o, ids))
    requires Failed(LastWorld(run).right, c.right, tids[..k], delivered, at)
    ensures IsRun(longer, c) && longer.worlds[0] == run.worlds[0]
    ensures HasSent(LastWorld(longer).left, tids, k + 1, UnitOf(data, o, ids))
    ensures Failed(LastWorld(longer).right, c.right, tids[..k + 1], delivered, at)
  {
    longer := FailNext(run, c, tids, k, data, o, ids);
    OneMoreOf(tids, k);
    FailsOneMore(LastWorld(run).right, LastWorld(longer).right, c.right, tids[..k], tids[k], delivered, at);
  }

  lemma {:induction false} FillUpWithFailures(w: World, c: Configs, tids: seq<Tid>, n: nat, data: Json, o: Options, ids: ChunkIds) returns (run: Run)
    requires Fresh(w.left) && Fresh(w.right) && w.left.open && c.left.deadlineMs > 0 && IsSendable(data, o, ids)
    requires AllDistinct(tids) && 0 < n <= |tids| && n <= c.right.limits.cap
    ensures IsRun(run, c) && run.worlds[0] == w
    ensures HasSent(LastWorld(run).left, tids, n, UnitOf(data, o, ids))
    ensures Failed(LastWorld(run).right, c.right, tids[..n], [Delivery(tids[0], data, w.right.now)], w.right.now)
    decreases n
  {
    if n == 1 {
      run := DeliverAndFail(w, c, tids, data, o, ids);
      assert tids[..1] == [tids[0]];
    } else {
      run := FillUpWithFailures(w, c, tids, n - 1, data, o, ids);
      run := FillNextFailure(run, c, tids, n - 1, data, o, ids, [Delivery(tids[0], data, w.right.now)], w.right.now);
    }
  }

  /** An idle receiver stays idle when one more transfer fails. */
  lemma {:induction false} FailingStaysIdle(e: Endpoint, c: Config, tids: seq<Tid>, t: Tid, delivered: seq<Delivery>, at: int)
    requires Failed(e, c, tids, delivered, at) && c.limits.ttl > 0
    ensures Idle(Abandon(e.receiver, c, at, t), at) && Abandon(e.receiver, c, at, t).delivered == delivered
  {
    SettleIsValid(e.receiver.settled, t, false, at, c.limits);
    SettleKeys(e.receiver.settled, t, false, at, c.limits);
  }

  /** The failures fill the memory, and one more drives out the first. */
  lemma {:induction false} FailureIsForgotten(w: World, c: Configs, tids: seq<Tid>, data: Json, o: Options, ids: ChunkIds) returns (run: Run)
    requires Fresh(w.left) && Fresh(w.right) && w.left.open && c.left.deadlineMs > 0 && IsSendable(data, o, ids)
    requires c.right.limits.ttl > 0 && AllDistinct(tids) && |tids| > 1 && |tids| - 1 == c.right.limits.cap
    ensures IsRun(run, c) && run.worlds[0] == w
    ensures HasSent(LastWorld(run).left, tids, |tids|, UnitOf(data, o, ids))
    ensures var e := LastWorld(run).right;
            && e.attached && e.now == w.right.now && Idle(e.receiver, e.now) && tids[0] !in e.receiver.settled.vals
            && e.receiver.delivered == [Delivery(tids[0], data, w.right.now)]
  {
    var cap, at, d := |tids| - 1, w.right.now, Delivery(tids[0], data, w.right.now);
    run := FillUpWithFailures(w, c, tids, cap, data, o, ids);
    ghost var full := LastWorld(run).right;
    run := FailNext(run, c, tids, cap, data, o, ids);
    OneMoreOf(tids, cap);
    assert tids[..cap + 1] == tids;
    FirstGoes(full.receiver.settled, tids[..cap], tids[cap], false, at, c.right.limits);
    FailingStaysIdle(full, c.right, tids[..cap], tids[cap], [d], at);
  }

  /** For every value and every cap: delivered, given up, and the failure that took the place of the success evicted by
      other failures, all at one time; then delivered again. No other transfer is ever delivered. */
  lemma {:induction false} RepeatsAfterFailure(w: World, c: Configs, tids: seq<Tid>, data: Json, o: Options, ids: ChunkIds) returns (run: Run)
    requires Fresh(w.left) && Fresh(w.right) && w.left.open && c.left.deadlineMs > 0 && IsSendable(data, o, ids)
    requires c.right.limits.ttl > 0 && AllDistinct(tids) && |tids| > 1 && |tids| - 1 == c.right.limits.cap
    ensures IsRun(run, c) && run.worlds[0] == w
    ensures var d := Delivery(tids[0], data, w.right.now);
            && LastWorld(run).right.receiver.delivered == [d, d] && !WereCrowded([d, d], d, d.at, c.right.limits)
            && FailureWasEvicted(LastWorld(run).right.receiver.forgotten, d, d.at, c.right.limits)
  {
    var d := Delivery(tids[0], data, w.right.now);
    run := FailureIsForgotten(w, c, tids, data, o, ids);
    run := DeliverOne(run, c, tids[0], data, o, ids);
    OneIsNoCrowd([d, d], d, d.at, c.right.limits);
    WhyRepeated(run, c, 0, 1);
  }
}
