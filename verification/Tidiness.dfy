/** What a receiver keeps: no partial transfer that has everything, and none that is too old. */
module Tidiness {
  import opened Outcomes
  import opened Json
  import opened Split
  import opened Ordered
  import opened Settlement
  import opened Deliveries
  import opened Packets
  import opened Receiving
  import opened ReceiverSafety
  import opened Sending
  import opened Protocol
  import opened Runs
  import Transmitted

  // ---- expiry --------------------------------------------------------------------------------------

  /** The transfer was dropped, with its timer, or is as it was. */
  predicate IsKeptOrGone(r: Receiver, r': Receiver, t: Tid, kept: bool) {
    if kept then t in r.states.vals && t in r'.states.vals && r'.states.vals[t] == r.states.vals[t]
    else t !in r'.states.vals && (t in r.states.vals ==> t !in r'.nackTimers)
  }

  lemma {:induction false} ExpiryDrops(r: Receiver, c: Config, now: int, tids: seq<Tid>, t: Tid)
    ensures IsKeptOrGone(r, ExpirePartials(r, c, now, tids), t,
              t in r.states.vals && !(t in tids && now - r.states.vals[t].updatedAt > c.partialTtlMs))
    ensures ExpirePartials(r, c, now, tids).nackTimers <= r.nackTimers
    ensures Valid(r.states) ==> Valid(ExpirePartials(r, c, now, tids).states)
    decreases tids
  {
    if tids != [] {
      assert tids == [tids[0]] + tids[1..];
      if tids[0] in r.states.vals && PartialExpired(r.states.vals[tids[0]], c, now) {
        if Valid(r.states) {
          DeleteIsValid(r.states, tids[0]);
        }
        ExpiryDrops(Abandon(r, c, now, tids[0]), c, now, tids[1..], t);
      } else {
        ExpiryDrops(r, c, now, tids[1..], t);
      }
    }
  }

  /** Cleaning up drops exactly the partial transfers that have had no packet for more than `partialTtlMs`, if that is
      positive, and else none; the others stay as they are. */
  lemma {:induction false} CleanupDropsTheOld(r: Receiver, c: Config, now: int, t: Tid)
    requires Valid(r.states)
    ensures IsKeptOrGone(r, Cleanup(r, c, now), t,
              t in r.states.vals && (c.partialTtlMs > 0 ==> now - r.states.vals[t].updatedAt <= c.partialTtlMs))
    ensures Valid(Cleanup(r, c, now).states)
  {
    if c.partialTtlMs > 0 {
      ExpiryDrops(SweepSettled(r, now), c, now, r.states.order, t);
    }
  }

  /** What a packet finds of its transfer: what was kept, unless that is too old, or else nothing. */
  function Found(r: Receiver, c: Config, now: int, t: Tid): Partial {
    if t in r.states.vals && (c.partialTtlMs > 0 ==> now - r.states.vals[t].updatedAt <= c.partialTtlMs) then
      r.states.vals[t].(updatedAt := now)
    else Partial(None, false, now, map[])
  }

  /** Taking in a packet cleans up first: it is added to what it finds of its own transfer, and of the others exactly those
      that are not too old are left. */
  lemma {:induction false} TakingInCleansUp(r: Receiver, c: Config, now: int, p: Packet, t: Tid)
    requires Valid(r.states)
    ensures var r' := TakeIn(r, c, now, p).0;
            && p.tid in r'.states.vals && r'.states.vals[p.tid] == AcceptInto(Found(r, c, now, p.tid), p, now).0
            && (t != p.tid ==>
                  IsKeptOrGone(r, r', t, t in r.states.vals && (c.partialTtlMs > 0 ==> now - r.states.vals[t].updatedAt <= c.partialTtlMs)))
  {
    CleanupDropsTheOld(r, c, now, p.tid);
    CleanupDropsTheOld(r, c, now, t);
  }

  lemma {:induction false} ExpiryRemembers(r: Receiver, c: Config, now: int, tids: seq<Tid>, t: Tid)
    ensures var m := ExpirePartials(r, c, now, tids).settled;
            t in m.vals ==> (t in r.settled.vals && m.vals[t] == r.settled.vals[t]) || m.vals[t] == Entry(false, now + c.limits.ttl)
    decreases tids
  {
    if tids != [] {
      if tids[0] in r.states.vals && PartialExpired(r.states.vals[tids[0]], c, now) {
        SettleKeys(r.settled, tids[0], false, now, c.limits);
        ExpiryRemembers(Abandon(r, c, now, tids[0]), c, now, tids[1..], t);
      } else {
        ExpiryRemembers(r, c, now, tids[1..], t);
      }
    }
  }

  /** Cleaning up forgets what has expired on both sides: of the sender's memory exactly the valid entries are left, and in
      the receiver's nothing but valid entries and new failures. */
  lemma {:induction false} CleanUpForgets(e: Endpoint, c: Config, t: Tid)
    requires Valid(e.sender.settled) && Valid(e.receiver.settled)
    ensures var e' := Next(e, c, CleanUp);
            && (t in e'.sender.settled.vals <==> t in e.sender.settled.vals && e.now < e.sender.settled.vals[t].expiresAt)
            && (t in e'.receiver.settled.vals ==>
                  || (t in e.receiver.settled.vals && e'.receiver.settled.vals[t] == e.receiver.settled.vals[t]
                      && e.now < e.receiver.settled.vals[t].expiresAt)
                  || e'.receiver.settled.vals[t] == Entry(false, e.now + c.limits.ttl))
  {
    SweepTtlFacts(e.sender.settled, e.now);
    SweepTtlFacts(e.receiver.settled, e.now);
    if c.partialTtlMs > 0 {
      ExpiryRemembers(SweepSettled(e.receiver, e.now), c, e.now, e.receiver.states.order, t);
    }
  }

  /** A send that ends is remembered, with its outcome and for one lifetime, if there is room. */
  lemma {:induction false} EndedSendIsRemembered(s: Sender, c: Config, now: int, t: Tid, ok: bool)
    requires t !in s.settled.vals && |s.settled.vals| < c.limits.cap
    ensures var m := Conclude(s, c, now, t, ok).settled;
            m.vals == s.settled.vals[t := Entry(ok, now + c.limits.ttl)]
  {
    assert |s.settled.vals[t := NewEntry(ok, now, c.limits)]| == |s.settled.vals| + 1;
  }

  // ---- nothing that is whole is kept ---------------------------------------------------------------

  predicate LacksSomething(r: Receiver, sent: Sent, t: Tid)
    requires t in r.states.vals
  {
    t in sent && !Whole(r.states.vals[t], sent[t])
  }

  ghost predicate Tidy(r: Receiver, sent: Sent) {
    Valid(r.states) && forall t :: t in r.states.vals ==> LacksSomething(r, sent, t)
  }

  /** The partial transfers of `r'` are some of those of `r`. */
  lemma {:induction false} FewerAreTidy(r: Receiver, r': Receiver, sent: Sent)
    requires Tidy(r, sent) && Valid(r'.states)
    requires forall t :: t in r'.states.vals ==> t in r.states.vals && r'.states.vals[t] == r.states.vals[t]
    ensures Tidy(r', sent)
  {
    forall t | t in r'.states.vals ensures LacksSomething(r', sent, t) {
      assert LacksSomething(r, sent, t);
    }
  }

  lemma {:induction false} CleanupIsTidy(r: Receiver, c: Config, now: int, sent: Sent)
    requires Tidy(r, sent)
    ensures Tidy(Cleanup(r, c, now), sent)
  {
    var r' := Cleanup(r, c, now);
    CleanupDropsTheOld(r, c, now, []);
    forall t | t in r'.states.vals ensures t in r.states.vals && r'.states.vals[t] == r.states.vals[t] {
      CleanupDropsTheOld(r, c, now, t);
    }
    FewerAreTidy(r, r', sent);
  }

  lemma {:induction false} AbandonIsTidy(r: Receiver, c: Config, now: int, t: Tid, sent: Sent)
    requires Tidy(r, sent)
    ensures Tidy(Abandon(r, c, now, t), sent)
  {
    DeleteIsValid(r.states, t);
    FewerAreTidy(r, Abandon(r, c, now, t), sent);
  }

  /** A packet either leaves something lacking, or the transfer is delivered and its partial state dropped. */
  lemma {:induction false} DataIsTidy(r: Receiver, c: Config, now: int, p: Packet, sent: Sent, gaveUp: set<Tid>)
    requires Safe(r, c, now, sent, gaveUp) && AllGenuine(sent) && Tidy(r, sent)
    requires IsData(p) && Honest(p, sent, gaveUp) && p.tid !in r.settled.vals
    ensures Tidy(ReceiveData(r, c, now, p).0, sent)
  {
    var t, cleaned := p.tid, Cleanup(r, c, now);
    var touched, u := Touch(r, c, now, t), sent[t];
    var (s, goOn) := AcceptInto(touched.states.vals[t], p, now);
    assert Genuine(u.packed, u.data);
    TouchIsSafe(r, c, now, t, sent, gaveUp);
    AcceptKeepsUnit(touched.states.vals[t], p, now, u);
    YieldIsExact(s, u);
    CleanupIsTidy(r, c, now, sent);
    StoredIsTidy(cleaned, touched, r, c, now, t, s, sent, ReceiveData(r, c, now, p).0);
  }

  lemma {:induction false} StoredIsTidy(cleaned: Receiver, touched: Receiver, r: Receiver, c: Config, now: int, t: Tid, s: Partial,
                                        sent: Sent, r': Receiver)
    requires Tidy(cleaned, sent) && touched == FindOrCreate(cleaned, now, t) && t in sent
    requires r'.states == if Whole(s, sent[t]) then Delete(Put(touched.states, t, s), t) else Put(touched.states, t, s)
    ensures Tidy(r', sent)
  {
    PutIsValid(cleaned.states, t, touched.states.vals[t]);
    PutIsValid(touched.states, t, s);
    DeleteIsValid(Put(touched.states, t, s), t);
    forall x | x in r'.states.vals ensures LacksSomething(r', sent, x) {
      assert x != t ==> LacksSomething(cleaned, sent, x);
    }
  }

  lemma {:induction false} ReceiveIsTidy(r: Receiver, c: Config, now: int, p: Packet, sent: Sent, gaveUp: set<Tid>)
    requires Safe(r, c, now, sent, gaveUp) && AllGenuine(sent) && Tidy(r, sent) && Honest(p, sent, gaveUp)
    ensures Tidy(Receive(r, c, now, p).0, sent)
  {
    if p.ErrorPacket? {
      AbandonIsTidy(r, c, now, p.tid, sent);
    } else if IsData(p) && p.tid !in r.settled.vals {
      DataIsTidy(r, c, now, p, sent, gaveUp);
    }
  }

  // ---- every run -----------------------------------------------------------------------------------

  /** What one event at an endpoint leaves of its partial transfers. */
  lemma {:induction false} NextIsTidy(e: Endpoint, c: Config, peer: Endpoint, pc: Config, ev: Event)
    requires Good(e, c, peer, pc) && Enabled(e, peer, ev) && Tidy(e.receiver, peer.sender.sent)
    ensures Tidy(Next(e, c, ev).receiver, peer.sender.sent)
  {
    match ev
    case Arrive(p) =>
      ArrivalIsHonest(e, c, peer, pc, p);
      ReceiveIsTidy(e.receiver, c, e.now, p, peer.sender.sent, peer.sender.gaveUp);
      ArrivalIsReceived(e, c, p, peer.sender.sent);
    case CleanUp => CleanupIsTidy(e.receiver, c, e.now, peer.sender.sent);
    case NackTimer(t) => FewerAreTidy(e.receiver, Next(e, c, ev).receiver, peer.sender.sent);
    case Detach => FewerAreTidy(e.receiver, Cleared(e.receiver), peer.sender.sent);
    case _ =>
  }

  lemma {:induction false} ArrivalIsReceived(e: Endpoint, c: Config, p: Packet, sent: Sent)
    requires Tidy(e.receiver, sent) && Tidy(Receive(e.receiver, c, e.now, p).0, sent)
    ensures Tidy(ArriveAt(e, c, p).receiver, sent)
  {
  }

  /** The peer sends more. */
  lemma {:induction false} TidyGrows(r: Receiver, sent: Sent, sent': Sent)
    requires Tidy(r, sent) && forall t :: t in sent ==> t in sent' && sent'[t] == sent[t]
    ensures Tidy(r, sent')
  {
    forall t | t in r.states.vals ensures LacksSomething(r, sent', t) {
      assert LacksSomething(r, sent, t);
    }
  }

  /** In every run, every partial transfer lacks some packet of its value: with the last one it is delivered. */
  lemma {:induction false} RunIsTidy(run: Run, c: Configs, i: nat, side: Side)
    requires IsRun(run, c) && i < |run.worlds|
    ensures Tidy(run.worlds[i].At(side).receiver, run.worlds[i].At(side.Other()).sender.sent)
  {
    if i > 0 {
      RunIsTidy(run, c, i - 1, side);
      MoveIsTidy(run, c, i - 1, side);
    }
  }

  lemma {:induction false} MoveIsTidy(run: Run, c: Configs, i: nat, side: Side)
    requires IsRun(run, c) && i < |run.moves|
    requires Tidy(run.worlds[i].At(side).receiver, run.worlds[i].At(side.Other()).sender.sent)
    ensures Tidy(run.worlds[i + 1].At(side).receiver, run.worlds[i + 1].At(side.Other()).sender.sent)
  {
    var m := run.moves[i];
    var before, after := run.worlds[i], run.worlds[i + 1];
    Transmitted.OthersStandStill(run, c, i);
    if m.side == side {
      var e := MoveIsNext(run, c, i, side, m.event);
      RunIsGood(run, c, i);
      GoodFromBothSides(before, c, side);
      NextIsTidy(e, c.At(side), before.At(side.Other()), c.At(side.Other()), m.event);
    } else {
      HistoryStands(run, c, i, i + 1, side.Other());
      TidyGrows(before.At(side).receiver, before.At(side.Other()).sender.sent, after.At(side.Other()).sender.sent);
    }
  }
}
