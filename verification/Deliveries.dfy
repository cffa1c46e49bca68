/** What a receiver has handed to its listeners, and why it may ever hand a transfer over twice. */
module Deliveries {
  import opened Text
  import opened Json
  import opened Ordered
  import opened Settlement

  datatype Delivery = Delivery(tid: Tid, value: Json, at: int)

  /** One shrinking of the settled memory: entries of `before` that are not in `after` were forgotten at this time. */
  datatype Drop = Drop(before: Memory, after: Memory, at: int)

  /** The transfers delivered within one lifetime before `at`. */
  function Live(delivered: seq<Delivery>, at: int, limits: Limits): set<Tid> {
    set d | d in delivered && d.at <= at < d.at + limits.ttl :: d.tid
  }

  /** The transfer is remembered as settled for at least its lifetime; as failed only if the sender gave up on it. */
  predicate Remembered(settled: Memory, d: Delivery, limits: Limits, gaveUp: set<Tid>) {
    && d.tid in settled.vals
    && settled.vals[d.tid].expiresAt >= d.at + limits.ttl
    && (settled.vals[d.tid].ok || d.tid in gaveUp)
  }

  /** Forgotten after delivery `d`: too old, or crowded out by more live deliveries than the cap, or, when the sender had
      given up and the entry become a failure, evicted from a memory over the cap. */
  predicate JustlyForgotten(delivered: seq<Delivery>, f: Drop, d: Delivery, limits: Limits, gaveUp: set<Tid>) {
    && d.tid in f.before.vals && d.tid !in f.after.vals && d.at <= f.at
    && f.before.vals[d.tid].expiresAt >= d.at + limits.ttl
    && (|| f.at >= d.at + limits.ttl
        || |Live(delivered, f.at, limits)| > limits.cap
        || (d.tid in gaveUp && EvictedAsFailed(f, d.tid, limits)))
  }

  predicate EvictedAsFailed(f: Drop, t: Tid, limits: Limits) {
    && t in f.before.vals && t !in f.after.vals
    && !f.before.vals[t].ok && |f.before.vals| > limits.cap
  }

  ghost predicate ForgottenSince(delivered: seq<Delivery>, forgotten: seq<Drop>, d: Delivery, until: int,
                                 limits: Limits, gaveUp: set<Tid>)
  {
    exists k :: 0 <= k < |forgotten| && forgotten[k].at <= until
             && JustlyForgotten(delivered, forgotten[k], d, limits, gaveUp)
  }

  /** A success in memory belongs to a delivery, made one lifetime before it expires. */
  ghost predicate HasDelivery(delivered: seq<Delivery>, t: Tid, e: Entry, now: int, limits: Limits) {
    exists d :: d in delivered && d.tid == t && d.at + limits.ttl == e.expiresAt && d.at <= now
  }

  ghost predicate Backed(delivered: seq<Delivery>, settled: Memory, now: int, limits: Limits) {
    forall t {:trigger HasDelivery(delivered, t, settled.vals[t], now, limits)} ::
      t in settled.vals && settled.vals[t].ok ==> HasDelivery(delivered, t, settled.vals[t], now, limits)
  }

  ghost predicate IsAccounted(delivered: seq<Delivery>, settled: Memory, forgotten: seq<Drop>, d: Delivery, now: int,
                              limits: Limits, gaveUp: set<Tid>)
  {
    || Remembered(settled, d, limits, gaveUp)
    || ForgottenSince(delivered, forgotten, d, now, limits, gaveUp)
  }

  /** Every delivery is remembered, or was forgotten for a reason. */
  ghost predicate Accounted(delivered: seq<Delivery>, settled: Memory, forgotten: seq<Drop>, now: int,
                            limits: Limits, gaveUp: set<Tid>)
  {
    forall i {:trigger IsAccounted(delivered, settled, forgotten, delivered[i], now, limits, gaveUp)} ::
      0 <= i < |delivered| ==> IsAccounted(delivered, settled, forgotten, delivered[i], now, limits, gaveUp)
  }

  /** Between two deliveries of one transfer, the first was forgotten. */
  ghost predicate Separated(delivered: seq<Delivery>, forgotten: seq<Drop>, limits: Limits, gaveUp: set<Tid>) {
    forall i, j {:trigger ForgottenSince(delivered, forgotten, delivered[i], delivered[j].at, limits, gaveUp)} ::
      0 <= i < j < |delivered| && delivered[i].tid == delivered[j].tid ==>
        ForgottenSince(delivered, forgotten, delivered[i], delivered[j].at, limits, gaveUp)
  }

  /** The link between the memory and the deliveries, kept by every step of a receiver. */
  ghost predicate Consistent(delivered: seq<Delivery>, settled: Memory, forgotten: seq<Drop>, now: int,
                             limits: Limits, gaveUp: set<Tid>)
  {
    && Aged(settled, now, limits)
    && Backed(delivered, settled, now, limits)
    && (forall i :: 0 <= i < |delivered| ==> delivered[i].at <= now)
    && Accounted(delivered, settled, forgotten, now, limits, gaveUp)
    && Separated(delivered, forgotten, limits, gaveUp)
  }

  lemma {:induction false} LiveGrows(delivered: seq<Delivery>, more: seq<Delivery>, at: int, limits: Limits)
    requires delivered <= more
    ensures |Live(delivered, at, limits)| <= |Live(more, at, limits)|
  {
    forall d | d in delivered ensures d in more {
      var i :| 0 <= i < |delivered| && delivered[i] == d;
      assert more[i] == d;
    }
    SubsetSize(Live(delivered, at, limits), Live(more, at, limits));
  }

  /** A reason for having forgotten stays one as time passes and history grows. */
  lemma {:induction false} StillForgotten(delivered: seq<Delivery>, forgotten: seq<Drop>, d: Delivery, until: int, limits: Limits,
                       gaveUp: set<Tid>, delivered': seq<Delivery>, forgotten': seq<Drop>, until': int,
                       gaveUp': set<Tid>)
    requires ForgottenSince(delivered, forgotten, d, until, limits, gaveUp)
    requires delivered <= delivered' && forgotten <= forgotten' && until <= until' && gaveUp <= gaveUp'
    ensures ForgottenSince(delivered', forgotten', d, until', limits, gaveUp')
  {
    var k :| 0 <= k < |forgotten| && forgotten[k].at <= until
             && JustlyForgotten(delivered, forgotten[k], d, limits, gaveUp);
    LiveGrows(delivered, delivered', forgotten[k].at, limits);
    assert forgotten'[k] == forgotten[k];
    assert JustlyForgotten(delivered', forgotten'[k], d, limits, gaveUp');
  }

  /** Time passes, and the sender gives up on more transfers. */
  lemma {:induction false} ConsistentLater(delivered: seq<Delivery>, settled: Memory, forgotten: seq<Drop>, now: int, limits: Limits,
                        gaveUp: set<Tid>, now': int, gaveUp': set<Tid>)
    requires Consistent(delivered, settled, forgotten, now, limits, gaveUp)
    requires now <= now' && gaveUp <= gaveUp'
    ensures Consistent(delivered, settled, forgotten, now', limits, gaveUp')
  {
    forall t | t in settled.vals && settled.vals[t].ok
      ensures HasDelivery(delivered, t, settled.vals[t], now', limits)
    {
      assert HasDelivery(delivered, t, settled.vals[t], now, limits);
    }
    forall i | 0 <= i < |delivered|
      ensures IsAccounted(delivered, settled, forgotten, delivered[i], now', limits, gaveUp')
    {
      assert IsAccounted(delivered, settled, forgotten, delivered[i], now, limits, gaveUp);
      if !Remembered(settled, delivered[i], limits, gaveUp) {
        StillForgotten(delivered, forgotten, delivered[i], now, limits, gaveUp, delivered, forgotten, now', gaveUp');
      }
    }
    forall i, j | 0 <= i < j < |delivered| && delivered[i].tid == delivered[j].tid
      ensures ForgottenSince(delivered, forgotten, delivered[i], delivered[j].at, limits, gaveUp')
    {
      StillForgotten(delivered, forgotten, delivered[i], delivered[j].at, limits, gaveUp,
                     delivered, forgotten, delivered[j].at, gaveUp');
    }
  }

  /** Valid successes in memory are live deliveries. */
  lemma {:induction false} ValidAreLive(delivered: seq<Delivery>, m: Memory, now: int, limits: Limits)
    requires Backed(delivered, m, now, limits)
    ensures |StillValid(m, now)| <= |Live(delivered, now, limits)|
  {
    forall t | t in StillValid(m, now) ensures t in Live(delivered, now, limits) {
      assert HasDelivery(delivered, t, m.vals[t], now, limits);
      var d :| d in delivered && d.tid == t && d.at + limits.ttl == m.vals[t].expiresAt && d.at <= now;
    }
    SubsetSize(StillValid(m, now), Live(delivered, now, limits));
  }

  /** Dropping entries keeps the link, when each dropped entry was expired, failed, or crowded out. */
  lemma {:induction false} ConsistentDrop(delivered: seq<Delivery>, settled: Memory, forgotten: seq<Drop>, now: int, limits: Limits,
                       gaveUp: set<Tid>, after: Memory)
    requires Consistent(delivered, settled, forgotten, now, limits, gaveUp)
    requires FairlyRemoved(settled, after, now, limits)
    ensures Consistent(delivered, after, forgotten + [Drop(settled, after, now)], now, limits, gaveUp)
  {
    var forgotten' := forgotten + [Drop(settled, after, now)];
    WithinKeepsAged(after, settled, now, limits);
    ValidAreLive(delivered, settled, now, limits);
    forall i | 0 <= i < |delivered|
      ensures IsAccounted(delivered, after, forgotten', delivered[i], now, limits, gaveUp)
    {
      var d := delivered[i];
      assert IsAccounted(delivered, settled, forgotten, delivered[i], now, limits, gaveUp);
      if !Remembered(settled, d, limits, gaveUp) {
        StillForgotten(delivered, forgotten, d, now, limits, gaveUp, delivered, forgotten', now, gaveUp);
      } else if d.tid !in after.vals {
        assert forgotten'[|forgotten|] == Drop(settled, after, now);
        assert JustlyForgotten(delivered, forgotten'[|forgotten|], d, limits, gaveUp);
      }
    }
    forall i, j | 0 <= i < j < |delivered| && delivered[i].tid == delivered[j].tid
      ensures ForgottenSince(delivered, forgotten', delivered[i], delivered[j].at, limits, gaveUp)
    {
      StillForgotten(delivered, forgotten, delivered[i], delivered[j].at, limits, gaveUp,
                     delivered, forgotten', delivered[j].at, gaveUp);
    }
  }

  /** Recording a failure keeps the link, unless it would overwrite a success the sender never gave up on. */
  lemma {:induction false} ConsistentFail(delivered: seq<Delivery>, settled: Memory, forgotten: seq<Drop>, now: int, limits: Limits,
                       gaveUp: set<Tid>, t: Tid)
    requires Consistent(delivered, settled, forgotten, now, limits, gaveUp)
    requires t in settled.vals && settled.vals[t].ok ==> t in gaveUp
    ensures Consistent(delivered, Put(settled, t, NewEntry(false, now, limits)), forgotten, now, limits, gaveUp)
  {
    var p := Put(settled, t, NewEntry(false, now, limits));
    PutKeepsAged(settled, t, false, now, limits);
    forall u | u in p.vals && p.vals[u].ok ensures HasDelivery(delivered, u, p.vals[u], now, limits) {
      assert HasDelivery(delivered, u, settled.vals[u], now, limits);
    }
    FailIsAccounted(delivered, settled, forgotten, now, limits, gaveUp, t);
  }

  lemma {:induction false} FailIsAccounted(delivered: seq<Delivery>, settled: Memory, forgotten: seq<Drop>, now: int, limits: Limits,
                        gaveUp: set<Tid>, t: Tid)
    requires Accounted(delivered, settled, forgotten, now, limits, gaveUp)
    requires forall i :: 0 <= i < |delivered| ==> delivered[i].at <= now
    requires t in settled.vals && settled.vals[t].ok ==> t in gaveUp
    ensures Accounted(delivered, Put(settled, t, NewEntry(false, now, limits)), forgotten, now, limits, gaveUp)
  {
    var p := Put(settled, t, NewEntry(false, now, limits));
    forall i | 0 <= i < |delivered| ensures IsAccounted(delivered, p, forgotten, delivered[i], now, limits, gaveUp) {
      assert IsAccounted(delivered, settled, forgotten, delivered[i], now, limits, gaveUp);
    }
  }

  /** Delivering a transfer that is not in memory, and recording it, keeps the link. */
  lemma {:induction false} ConsistentDeliver(delivered: seq<Delivery>, settled: Memory, forgotten: seq<Drop>, now: int,
                          limits: Limits, gaveUp: set<Tid>, d: Delivery)
    requires Consistent(delivered, settled, forgotten, now, limits, gaveUp)
    requires d.tid !in settled.vals && d.at == now
    ensures Consistent(delivered + [d], Put(settled, d.tid, NewEntry(true, now, limits)), forgotten, now, limits, gaveUp)
  {
    var p, delivered' := Put(settled, d.tid, NewEntry(true, now, limits)), delivered + [d];
    assert Aged(p, now, limits) by { PutKeepsAged(settled, d.tid, true, now, limits); }
    assert Backed(delivered', p, now, limits) by { DeliveryIsBacked(delivered, settled, now, limits, d); }
    assert Accounted(delivered', p, forgotten, now, limits, gaveUp) by {
      DeliveryIsAccounted(delivered, settled, forgotten, now, limits, gaveUp, d);
    }
    assert Separated(delivered', forgotten, limits, gaveUp) by {
      DeliveryIsSeparated(delivered, settled, forgotten, now, limits, gaveUp, d);
    }
  }

  lemma {:induction false} DeliveryIsBacked(delivered: seq<Delivery>, settled: Memory, now: int, limits: Limits, d: Delivery)
    requires Backed(delivered, settled, now, limits) && d.at == now
    ensures Backed(delivered + [d], Put(settled, d.tid, NewEntry(true, now, limits)), now, limits)
  {
    var p, delivered' := Put(settled, d.tid, NewEntry(true, now, limits)), delivered + [d];
    forall t | t in p.vals && p.vals[t].ok ensures HasDelivery(delivered', t, p.vals[t], now, limits) {
      if t == d.tid {
        assert d in delivered';
      } else {
        assert HasDelivery(delivered, t, settled.vals[t], now, limits);
      }
    }
  }

  lemma {:induction false} DeliveryIsAccounted(delivered: seq<Delivery>, settled: Memory, forgotten: seq<Drop>, now: int,
                            limits: Limits, gaveUp: set<Tid>, d: Delivery)
    requires Accounted(delivered, settled, forgotten, now, limits, gaveUp)
    requires d.tid !in settled.vals && d.at == now
    ensures Accounted(delivered + [d], Put(settled, d.tid, NewEntry(true, now, limits)), forgotten, now, limits, gaveUp)
  {
    var p, delivered' := Put(settled, d.tid, NewEntry(true, now, limits)), delivered + [d];
    forall i | 0 <= i < |delivered'|
      ensures IsAccounted(delivered', p, forgotten, delivered'[i], now, limits, gaveUp)
    {
      assert i < |delivered| ==> IsAccounted(delivered, settled, forgotten, delivered[i], now, limits, gaveUp);
      if i < |delivered| && !Remembered(settled, delivered[i], limits, gaveUp) {
        StillForgotten(delivered, forgotten, delivered[i], now, limits, gaveUp, delivered', forgotten, now, gaveUp);
      }
    }
  }

  lemma {:induction false} DeliveryIsSeparated(delivered: seq<Delivery>, settled: Memory, forgotten: seq<Drop>, now: int,
                            limits: Limits, gaveUp: set<Tid>, d: Delivery)
    requires Accounted(delivered, settled, forgotten, now, limits, gaveUp)
    requires Separated(delivered, forgotten, limits, gaveUp)
    requires d.tid !in settled.vals && d.at == now
    ensures Separated(delivered + [d], forgotten, limits, gaveUp)
  {
    var delivered' := delivered + [d];
    forall i, j | 0 <= i < j < |delivered'| && delivered'[i].tid == delivered'[j].tid
      ensures ForgottenSince(delivered', forgotten, delivered'[i], delivered'[j].at, limits, gaveUp)
    {
      var until := delivered'[j].at;
      if j < |delivered| {
        assert ForgottenSince(delivered, forgotten, delivered[i], delivered[j].at, limits, gaveUp);
      } else {
        assert IsAccounted(delivered, settled, forgotten, delivered[i], now, limits, gaveUp);
      }
      assert ForgottenSince(delivered, forgotten, delivered[i], until, limits, gaveUp);
      StillForgotten(delivered, forgotten, delivered[i], until, limits, gaveUp, delivered', forgotten, until, gaveUp);
    }
  }

  /** Eviction after settling keeps the link. */
  lemma {:induction false} ConsistentEviction(delivered: seq<Delivery>, settled: Memory, forgotten: seq<Drop>, now: int,
                           limits: Limits, gaveUp: set<Tid>, t: Tid, ok: bool)
    requires Consistent(delivered, Put(settled, t, NewEntry(ok, now, limits)), forgotten, now, limits, gaveUp)
    ensures var m := Settle(settled, t, ok, now, limits);
            Consistent(delivered, m, forgotten + [Drop(Put(settled, t, NewEntry(ok, now, limits)), m, now)], now, limits, gaveUp)
  {
    SettleIsFair(settled, t, ok, now, limits);
    ConsistentDrop(delivered, Put(settled, t, NewEntry(ok, now, limits)), forgotten, now, limits, gaveUp,
                   Settle(settled, t, ok, now, limits));
  }

  lemma {:induction false} ConsistentSettleFail(delivered: seq<Delivery>, settled: Memory, forgotten: seq<Drop>, now: int,
                             limits: Limits, gaveUp: set<Tid>, t: Tid)
    requires Consistent(delivered, settled, forgotten, now, limits, gaveUp)
    requires t in settled.vals && settled.vals[t].ok ==> t in gaveUp
    ensures var m := Settle(settled, t, false, now, limits);
            Consistent(delivered, m, forgotten + [Drop(Put(settled, t, NewEntry(false, now, limits)), m, now)], now, limits, gaveUp)
  {
    ConsistentFail(delivered, settled, forgotten, now, limits, gaveUp, t);
    ConsistentEviction(delivered, settled, forgotten, now, limits, gaveUp, t, false);
  }

  lemma {:induction false} ConsistentSettleOk(delivered: seq<Delivery>, settled: Memory, forgotten: seq<Drop>, now: int,
                           limits: Limits, gaveUp: set<Tid>, d: Delivery)
    requires Consistent(delivered, settled, forgotten, now, limits, gaveUp)
    requires d.tid !in settled.vals && d.at == now
    ensures var m := Settle(settled, d.tid, true, now, limits);
            Consistent(delivered + [d], m, forgotten + [Drop(Put(settled, d.tid, NewEntry(true, now, limits)), m, now)], now, limits, gaveUp)
  {
    ConsistentDeliver(delivered, settled, forgotten, now, limits, gaveUp, d);
    ConsistentEviction(delivered + [d], settled, forgotten, now, limits, gaveUp, d.tid, true);
  }
}
