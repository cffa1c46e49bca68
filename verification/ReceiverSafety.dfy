/** What every step of a receiver keeps: only genuine values are delivered, and acknowledgements follow deliveries. */
module ReceiverSafety {
  import opened Outcomes
  import opened Json
  import opened Split
  import opened Ordered
  import opened Settlement
  import opened Deliveries
  import opened Packets
  import opened Receiving

  /** The partial transfer holds packets of this value only. */
  predicate FromUnit(s: Partial, u: Unit) {
    && (s.manifest.Some? ==> s.manifest.value == ManifestOf(u.packed))
    && OnlyFrom(s.buffer, u.packed.chunks)
  }

  ghost predicate AllGenuine(sent: Sent) {
    forall t :: t in sent ==> Genuine(sent[t].packed, sent[t].data)
  }

  predicate PartialsGenuine(r: Receiver, sent: Sent) {
    forall t :: t in r.states.vals ==> t in sent && FromUnit(r.states.vals[t], sent[t])
  }

  predicate SettledKnown(r: Receiver, sent: Sent) {
    forall t :: t in r.settled.vals ==> t in sent && (r.settled.vals[t].ok ==> t !in r.states.vals)
  }

  predicate DeliveredGenuine(delivered: seq<Delivery>, sent: Sent) {
    forall i :: 0 <= i < |delivered| ==> delivered[i].tid in sent && delivered[i].value == sent[delivered[i].tid].data
  }

  ghost predicate Safe(r: Receiver, c: Config, now: int, sent: Sent, gaveUp: set<Tid>) {
    && Consistent(r.delivered, r.settled, r.forgotten, now, c.limits, gaveUp)
    && PartialsGenuine(r, sent)
    && SettledKnown(r, sent)
    && DeliveredGenuine(r.delivered, sent)
  }

  ghost predicate WasDelivered(r: Receiver, t: Tid) {
    exists i :: 0 <= i < |r.delivered| && r.delivered[i].tid == t
  }

  /** Time passes, and the sender sends and gives up more. */
  lemma {:induction false} SafeGrows(r: Receiver, c: Config, now: int, sent: Sent, gaveUp: set<Tid>, now': int, sent': Sent, gaveUp': set<Tid>)
    requires Safe(r, c, now, sent, gaveUp)
    requires now <= now' && gaveUp <= gaveUp' && forall t :: t in sent ==> t in sent' && sent'[t] == sent[t]
    ensures Safe(r, c, now', sent', gaveUp')
  {
    ConsistentLater(r.delivered, r.settled, r.forgotten, now, c.limits, gaveUp, now', gaveUp');
  }

  // ---- settling --------------------------------------------------------------------------------

  lemma {:induction false} AbandonIsSafe(r: Receiver, c: Config, now: int, t: Tid, sent: Sent, gaveUp: set<Tid>)
    requires Safe(r, c, now, sent, gaveUp)
    requires t in sent && (t in r.settled.vals && r.settled.vals[t].ok ==> t in gaveUp)
    ensures Safe(Abandon(r, c, now, t), c, now, sent, gaveUp)
  {
    ConsistentSettleFail(r.delivered, r.settled, r.forgotten, now, c.limits, gaveUp, t);
    SettleKeys(r.settled, t, false, now, c.limits);
  }

  lemma {:induction false} SweepIsSafe(r: Receiver, c: Config, now: int, sent: Sent, gaveUp: set<Tid>)
    requires Safe(r, c, now, sent, gaveUp)
    ensures Safe(SweepSettled(r, now), c, now, sent, gaveUp)
    ensures Within(SweepSettled(r, now).settled, r.settled)
  {
    SweepTtlFacts(r.settled, now);
    SweepIsFair(r.settled, now, c.limits);
    ConsistentDrop(r.delivered, r.settled, r.forgotten, now, c.limits, gaveUp, SweepTtl(r.settled, now));
  }

  /** What cleaning up may change: partial transfers disappear, and those may then be settled. */
  predicate OnlyExpires(r: Receiver, r': Receiver) {
    && r'.delivered == r.delivered
    && r.forgotten <= r'.forgotten
    && (forall t :: t in r'.states.vals ==> t in r.states.vals && r'.states.vals[t] == r.states.vals[t])
    && (forall t :: t in r'.settled.vals && t !in r.settled.vals ==> t in r.states.vals && t !in r'.states.vals)
    && (forall t :: t in r'.settled.vals && r'.settled.vals[t].ok ==> t in r.settled.vals && r.settled.vals[t].ok)
  }

  lemma {:induction false} AbandonOnlyExpires(r: Receiver, c: Config, now: int, t: Tid)
    requires t in r.states.vals
    ensures OnlyExpires(r, Abandon(r, c, now, t))
  {
    SettleKeys(r.settled, t, false, now, c.limits);
  }

  lemma {:induction false} OnlyExpiresTransitive(a: Receiver, b: Receiver, d: Receiver)
    requires OnlyExpires(a, b) && OnlyExpires(b, d)
    ensures OnlyExpires(a, d)
  {
  }

  lemma {:induction false} ExpiryIsSafe(r: Receiver, c: Config, now: int, tids: seq<Tid>, sent: Sent, gaveUp: set<Tid>)
    requires Safe(r, c, now, sent, gaveUp)
    ensures Safe(ExpirePartials(r, c, now, tids), c, now, sent, gaveUp)
    ensures OnlyExpires(r, ExpirePartials(r, c, now, tids))
    decreases tids
  {
    if tids != [] {
      if tids[0] in r.states.vals && PartialExpired(r.states.vals[tids[0]], c, now) {
        var next := Abandon(r, c, now, tids[0]);
        AbandonIsSafe(r, c, now, tids[0], sent, gaveUp);
        AbandonOnlyExpires(r, c, now, tids[0]);
        ExpiryIsSafe(next, c, now, tids[1..], sent, gaveUp);
        OnlyExpiresTransitive(r, next, ExpirePartials(r, c, now, tids));
      } else {
        ExpiryIsSafe(r, c, now, tids[1..], sent, gaveUp);
      }
    }
  }

  lemma {:induction false} CleanupIsSafe(r: Receiver, c: Config, now: int, sent: Sent, gaveUp: set<Tid>)
    requires Safe(r, c, now, sent, gaveUp)
    ensures Safe(Cleanup(r, c, now), c, now, sent, gaveUp) && OnlyExpires(r, Cleanup(r, c, now))
  {
    var swept := SweepSettled(r, now);
    SweepIsSafe(r, c, now, sent, gaveUp);
    assert OnlyExpires(r, swept);
    if c.partialTtlMs > 0 {
      ExpiryIsSafe(swept, c, now, swept.states.order, sent, gaveUp);
      OnlyExpiresTransitive(r, swept, Cleanup(r, c, now));
    }
  }

  // ---- taking in one packet ----------------------------------------------------------------------

  const FRESH := Partial(None, false, 0, map[])

  /** Cleaning up may settle this very transfer as failed; its partial transfer then starts again from nothing. */
  lemma {:induction false} TouchIsSafe(r: Receiver, c: Config, now: int, t: Tid, sent: Sent, gaveUp: set<Tid>)
    requires Safe(r, c, now, sent, gaveUp) && t in sent && t !in r.settled.vals
    ensures var r' := Touch(r, c, now, t);
            && Safe(r', c, now, sent, gaveUp)
            && r'.delivered == r.delivered
            && (t in r'.settled.vals ==> r'.states.vals[t] == FRESH.(updatedAt := now))
  {
    CleanupIsSafe(r, c, now, sent, gaveUp);
  }

  lemma {:induction false} AcceptKeepsUnit(s: Partial, p: Packet, now: int, u: Unit)
    requires FromUnit(s, u) && ValidManifest(u.packed.root, u.packed.refs) && ChunksMatch(u.packed.refs, u.packed.chunks)
    requires IsData(p) && (BelongsTo(p, u.packed) || (p.ChunkPacket? && !p.intact))
    ensures FromUnit(AcceptInto(s, p, now).0, u) && AcceptInto(s, p, now).1
  {
    if p.ManifestPacket? {
      forall cid, i | cid in s.buffer && i in s.buffer[cid] ensures ChunkMatchesManifest(p.manifest, s.buffer[cid][i]) {
        assert IsFiled(u.packed.chunks, cid, i, s.buffer[cid][i]);
        FittingMatches(u, s.buffer[cid][i]);
      }
    } else if p.ChunkPacket? {
      forall cid, i | cid in AddChunk(s.buffer, p.chunk) && i in AddChunk(s.buffer, p.chunk)[cid] && p.intact
        ensures IsFiled(u.packed.chunks, cid, i, AddChunk(s.buffer, p.chunk)[cid][i])
      {
        assert cid in s.buffer && i in s.buffer[cid] ==> IsFiled(u.packed.chunks, cid, i, s.buffer[cid][i]);
      }
    }
  }

  lemma {:induction false} FittingMatches(u: Unit, chunk: Chunk)
    requires DistinctRefs(u.packed.refs) && ChunkFits(u.packed.refs, chunk)
    ensures ChunkMatchesManifest(ManifestOf(u.packed), chunk)
  {
    var i :| 0 <= i < |u.packed.refs| && u.packed.refs[i].cid == chunk.cid
             && u.packed.refs[i].chunks == chunk.total && chunk.index < chunk.total;
    var k := RefIndex(u.packed.refs, chunk.cid);
    assert k == i;
  }

  lemma {:induction false} SizesMatchPass(refs: seq<ChunkRef>, b: Buffer)
    requires forall i :: 0 <= i < |refs| ==> SizeMatches(b, refs[i])
    ensures SizesPass(refs, b)
  {
    if refs != [] {
      assert SizeMatches(b, refs[0]);
      SizesMatchPass(refs[1..], b);
    }
  }

  /** The partial transfer holds everything its value was sent as. */
  predicate Whole(s: Partial, u: Unit) {
    s.manifest.Some? && s.complete && Holds(s.buffer, u.packed.chunks)
  }

  lemma {:induction false} YieldOfGood(s: Partial, u: Unit)
    requires s.manifest.Some? ==> s.manifest.value == ManifestOf(u.packed)
    requires GoodBuffer(u.packed, u.data, s.buffer) && u.data.Node?
    ensures Yield(s, true) == if Whole(s, u) then Some(u.data) else None
  {
    SizesMatchPass(u.packed.refs, s.buffer);
  }

  /** A partial transfer of genuine packets yields its value once nothing is missing, and nothing before that. */
  lemma {:induction false} YieldIsExact(s: Partial, u: Unit)
    requires FromUnit(s, u) && Genuine(u.packed, u.data)
    ensures Yield(s, true) == if Whole(s, u) then Some(u.data) else None
  {
    assert OnlyFrom(s.buffer, u.packed.chunks);
    assert GoodBuffer(u.packed, u.data, s.buffer);
    YieldOfGood(s, u);
  }

  // ---- delivering --------------------------------------------------------------------------------

  lemma {:induction false} DeliverIsSafe(r: Receiver, c: Config, now: int, t: Tid, v: Json, sent: Sent, gaveUp: set<Tid>)
    requires Safe(r, c, now, sent, gaveUp)
    requires t in sent && v == sent[t].data && t !in r.settled.vals
    ensures Safe(Deliver(r, c, now, t, v), c, now, sent, gaveUp)
  {
    ConsistentSettleOk(r.delivered, r.settled, r.forgotten, now, c.limits, gaveUp, Delivery(t, v, now));
    SettleKeys(r.settled, t, true, now, c.limits);
  }

  /** Every acknowledgement in `out` is for a delivered transfer. */
  ghost predicate AcksFollowDeliveries(r: Receiver, out: seq<Packet>) {
    forall i :: 0 <= i < |out| && out[i].AckPacket? ==> WasDelivered(r, out[i].tid)
  }

  lemma {:induction false} StoreIsSafe(r: Receiver, c: Config, now: int, t: Tid, s: Partial, sent: Sent, gaveUp: set<Tid>)
    requires Safe(r, c, now, sent, gaveUp) && t in r.states.vals
    requires t in sent && FromUnit(s, sent[t])
    ensures Safe(r.(states := Put(r.states, t, s)), c, now, sent, gaveUp)
  {
  }

  /** Taking in a packet of a transfer that is not settled; only its own value can come out, and only if the
      clean-up on the way did not settle it. */
  lemma {:induction false} TakeInIsSafe(r: Receiver, c: Config, now: int, p: Packet, sent: Sent, gaveUp: set<Tid>)
    requires Safe(r, c, now, sent, gaveUp) && AllGenuine(sent)
    requires IsData(p) && Honest(p, sent, gaveUp) && p.tid !in r.settled.vals
    ensures var (stored, yielded) := TakeIn(r, c, now, p);
            && Safe(stored, c, now, sent, gaveUp)
            && stored.delivered == r.delivered
            && (yielded.Some? ==> yielded.value == sent[p.tid].data && p.tid !in stored.settled.vals)
  {
    var touched, u := Touch(r, c, now, p.tid), sent[p.tid];
    var (s, goOn) := AcceptInto(touched.states.vals[p.tid], p, now);
    TouchIsSafe(r, c, now, p.tid, sent, gaveUp);
    assert Genuine(u.packed, u.data);
    AcceptKeepsUnit(touched.states.vals[p.tid], p, now, u);
    StoreIsSafe(touched, c, now, p.tid, s, sent, gaveUp);
    YieldIsExact(s, u);
  }

  /** Acknowledgements follow deliveries, and only the value sent is delivered, if its transfer was not settled. */
  ghost predicate DeliversFairly(r: Receiver, r': Receiver, out: seq<Packet>, t: Tid, now: int, sent: Sent) {
    && AcksFollowDeliveries(r', out)
    && (r'.delivered == r.delivered
        || (t in sent && t !in r.settled.vals && r'.delivered == r.delivered + [Delivery(t, sent[t].data, now)]))
  }

  lemma {:induction false} DeliverIsFair(r: Receiver, stored: Receiver, c: Config, now: int, t: Tid, sent: Sent)
    requires t in sent && t !in r.settled.vals && stored.delivered == r.delivered
    ensures DeliversFairly(r, Deliver(stored, c, now, t, sent[t].data), [AckPacket(t)], t, now, sent)
  {
    var r' := Deliver(stored, c, now, t, sent[t].data);
    assert r'.delivered[|r.delivered|].tid == t;
  }

  lemma {:induction false} ReceiveDataIsSafe(r: Receiver, c: Config, now: int, p: Packet, sent: Sent, gaveUp: set<Tid>)
    requires Safe(r, c, now, sent, gaveUp) && AllGenuine(sent)
    requires IsData(p) && Honest(p, sent, gaveUp)
    ensures var (r', out) := ReceiveData(r, c, now, p);
            Safe(r', c, now, sent, gaveUp) && DeliversFairly(r, r', out, p.tid, now, sent)
  {
    var t := p.tid;
    if t in r.settled.vals {
      if r.settled.vals[t].ok {
        OkWasDelivered(r, c, now, t, gaveUp);
      }
    } else {
      var (stored, yielded) := TakeIn(r, c, now, p);
      TakeInIsSafe(r, c, now, p, sent, gaveUp);
      if yielded.Some? {
        DeliverIsSafe(stored, c, now, t, sent[t].data, sent, gaveUp);
        DeliverIsFair(r, stored, c, now, t, sent);
      }
    }
  }

  lemma {:induction false} OkWasDelivered(r: Receiver, c: Config, now: int, t: Tid, gaveUp: set<Tid>)
    requires Consistent(r.delivered, r.settled, r.forgotten, now, c.limits, gaveUp)
    requires t in r.settled.vals && r.settled.vals[t].ok
    ensures WasDelivered(r, t)
  {
    assert HasDelivery(r.delivered, t, r.settled.vals[t], now, c.limits);
  }

  /** Whatever an unreliable channel delivers: only sent values are handed over, each only when it is not
      remembered as settled, and an acknowledgement only for a value handed over. */
  lemma {:induction false} ReceiveIsSafe(r: Receiver, c: Config, now: int, p: Packet, sent: Sent, gaveUp: set<Tid>)
    requires Safe(r, c, now, sent, gaveUp) && AllGenuine(sent) && Honest(p, sent, gaveUp)
    ensures var (r', out) := Receive(r, c, now, p);
            Safe(r', c, now, sent, gaveUp) && DeliversFairly(r, r', out, p.tid, now, sent)
  {
    if p.ErrorPacket? {
      AbandonIsSafe(r, c, now, p.tid, sent, gaveUp);
    } else if IsData(p) {
      ReceiveDataIsSafe(r, c, now, p, sent, gaveUp);
    }
  }

  /** A receiver answers with acknowledgements of what it delivered, and with nacks. */
  ghost predicate Replies(r: Receiver, out: seq<Packet>) {
    (forall i :: 0 <= i < |out| ==> out[i].AckPacket? || out[i].NackPacket?) && AcksFollowDeliveries(r, out)
  }

  lemma {:induction false} ReceiveReplies(r: Receiver, c: Config, now: int, p: Packet, sent: Sent, gaveUp: set<Tid>)
    requires Safe(r, c, now, sent, gaveUp) && AllGenuine(sent) && Honest(p, sent, gaveUp)
    ensures var (r', out) := Receive(r, c, now, p);
            Safe(r', c, now, sent, gaveUp) && Replies(r', out) && r.delivered <= r'.delivered
  {
    ReceiveIsSafe(r, c, now, p, sent, gaveUp);
  }

  // ---- silence about settled transfers -------------------------------------------------------------

  /** Nothing is delivered for `t`, it is acknowledged only if it had been settled as a success, and it does not become one. */
  predicate KeepsQuiet(r: Receiver, r': Receiver, out: seq<Packet>, t: Tid)
    requires t in r.settled.vals
  {
    && r.delivered <= r'.delivered
    && (forall i :: |r.delivered| <= i < |r'.delivered| ==> r'.delivered[i].tid != t)
    && (AckPacket(t) in out ==> r.settled.vals[t].ok)
    && (t in r'.settled.vals && r'.settled.vals[t].ok ==> r.settled.vals[t].ok)
  }

  lemma {:induction false} TakeInOnlyExpires(r: Receiver, c: Config, now: int, p: Packet, sent: Sent, gaveUp: set<Tid>, t: Tid)
    requires Safe(r, c, now, sent, gaveUp) && IsData(p) && p.tid !in r.settled.vals
    ensures var stored := TakeIn(r, c, now, p).0;
            t in stored.settled.vals && stored.settled.vals[t].ok ==> t in r.settled.vals && r.settled.vals[t].ok
  {
    CleanupIsSafe(r, c, now, sent, gaveUp);
  }

  /** While a settled transfer is remembered, no packet makes the receiver deliver it; if it failed, none makes it acknowledge it. */
  lemma {:induction false} SettledIsQuiet(r: Receiver, c: Config, now: int, p: Packet, sent: Sent, gaveUp: set<Tid>, t: Tid)
    requires Safe(r, c, now, sent, gaveUp) && AllGenuine(sent) && Honest(p, sent, gaveUp)
    requires t in r.settled.vals
    ensures var (r', out) := Receive(r, c, now, p); KeepsQuiet(r, r', out, t)
  {
    var (r', out) := Receive(r, c, now, p);
    assert DeliversFairly(r, r', out, p.tid, now, sent) by { ReceiveIsSafe(r, c, now, p, sent, gaveUp); }
    NothingDelivered(r, r', out, p.tid, now, sent, t);
    AcksAreOfSuccesses(r, c, now, p, t);
    NoNewSuccess(r, c, now, p, sent, gaveUp, t);
  }

  lemma {:induction false} NothingDelivered(r: Receiver, r': Receiver, out: seq<Packet>, t: Tid, now: int, sent: Sent, settled: Tid)
    requires DeliversFairly(r, r', out, t, now, sent) && settled in r.settled.vals
    ensures r.delivered <= r'.delivered
    ensures forall i :: |r.delivered| <= i < |r'.delivered| ==> r'.delivered[i].tid != settled
  {
  }

  lemma {:induction false} AcksAreOfSuccesses(r: Receiver, c: Config, now: int, p: Packet, t: Tid)
    requires t in r.settled.vals
    ensures AckPacket(t) in Receive(r, c, now, p).1 ==> r.settled.vals[t].ok
  {
    var out := Receive(r, c, now, p).1;
    assert out == [] || out == [AckPacket(p.tid)];
  }

  lemma {:induction false} NoNewSuccess(r: Receiver, c: Config, now: int, p: Packet, sent: Sent, gaveUp: set<Tid>, t: Tid)
    requires Safe(r, c, now, sent, gaveUp) && t in r.settled.vals
    ensures var r' := Receive(r, c, now, p).0;
            t in r'.settled.vals && r'.settled.vals[t].ok ==> r.settled.vals[t].ok
  {
    if p.ErrorPacket? {
      SettleKeys(r.settled, p.tid, false, now, c.limits);
    } else if IsData(p) && p.tid !in r.settled.vals {
      TakeInOnlyExpires(r, c, now, p, sent, gaveUp, t);
      SettleKeys(TakeIn(r, c, now, p).0.settled, p.tid, true, now, c.limits);
    }
  }

  ghost predicate AllKeptQuiet(r: Receiver, r': Receiver, out: seq<Packet>) {
    r.delivered <= r'.delivered && forall t :: t in r.settled.vals ==> KeepsQuiet(r, r', out, t)
  }

  lemma {:induction false} ReceiveKeepsQuiet(r: Receiver, c: Config, now: int, p: Packet, sent: Sent, gaveUp: set<Tid>)
    requires Safe(r, c, now, sent, gaveUp) && AllGenuine(sent) && Honest(p, sent, gaveUp)
    ensures var (r', out) := Receive(r, c, now, p); AllKeptQuiet(r, r', out)
  {
    var (r', out) := Receive(r, c, now, p);
    forall t | t in r.settled.vals ensures KeepsQuiet(r, r', out, t) {
      SettledIsQuiet(r, c, now, p, sent, gaveUp, t);
    }
    ReceiveReplies(r, c, now, p, sent, gaveUp);
  }

  lemma {:induction false} CleanupKeepsQuiet(r: Receiver, c: Config, now: int, sent: Sent, gaveUp: set<Tid>)
    requires Safe(r, c, now, sent, gaveUp)
    ensures AllKeptQuiet(r, Cleanup(r, c, now), [])
  {
    CleanupIsSafe(r, c, now, sent, gaveUp);
  }
}
