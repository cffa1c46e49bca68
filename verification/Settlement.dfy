/** The bounded memory of settled transfers, and the order in which it forgets. */
module Settlement {
  import opened Outcomes
  import opened Text
  import opened Ordered

  type Tid = JsString

  datatype Entry = Entry(ok: bool, expiresAt: int)

  /** How long settled transfers are remembered, and how many at most. */
  datatype Limits = Limits(ttl: int, cap: int)

  type Memory = JsMap<Tid, Entry>

  predicate Expired(e: Entry, now: int) { now >= e.expiresAt }

  /** `a` was obtained from `b` by removing entries. */
  ghost predicate Within(a: Memory, b: Memory) {
    && (Valid(b) ==> Valid(a))
    && (forall t :: t in a.vals ==> t in b.vals && a.vals[t] == b.vals[t])
    && (forall t, u {:trigger Before(a.order, t, u)} ::
          t in b.vals && u in b.vals && Before(a.order, t, u) ==> Before(b.order, t, u))
  }

  lemma {:induction false} DeleteIsWithin(m: Memory, t: Tid)
    ensures Within(Delete(m, t), m)
  {
    WithoutFacts(m.order, t);
    if Valid(m) {
      DeleteIsValid(m, t);
    }
  }

  lemma {:induction false} WithinIsTransitive(a: Memory, b: Memory, c: Memory)
    requires Valid(c) && Within(a, b) && Within(b, c)
    ensures Within(a, c)
  {
    forall t, u | t in c.vals && u in c.vals && Before(a.order, t, u) ensures Before(c.order, t, u) {
      var i, j :| 0 <= i < j < |a.order| && a.order[i] == t && a.order[j] == u;
      assert t in a.vals && u in a.vals;
    }
  }

  // ---- forgetting by age -----------------------------------------------------------------------

  /** Removes the expired ones among `tids`. */
  function DropExpired(m: Memory, tids: seq<Tid>, now: int): Memory
    decreases tids
  {
    if tids == [] then m
    else if tids[0] in m.vals && Expired(m.vals[tids[0]], now) then DropExpired(Delete(m, tids[0]), tids[1..], now)
    else DropExpired(m, tids[1..], now)
  }

  function SweepTtl(m: Memory, now: int): Memory { DropExpired(m, m.order, now) }

  lemma {:induction false} DropExpiredFacts(m: Memory, tids: seq<Tid>, now: int)
    requires Valid(m)
    ensures var r := DropExpired(m, tids, now);
            && Within(r, m)
            && forall t :: t in m.vals ==> (t in r.vals <==> !(t in tids && Expired(m.vals[t], now)))
    decreases tids
  {
    if tids != [] {
      if tids[0] in m.vals && Expired(m.vals[tids[0]], now) {
        var d := Delete(m, tids[0]);
        DeleteIsWithin(m, tids[0]);
        DropExpiredFacts(d, tids[1..], now);
        WithinIsTransitive(DropExpired(m, tids, now), d, m);
      } else {
        DropExpiredFacts(m, tids[1..], now);
      }
    }
  }

  /** The sweep removes exactly the expired entries. */
  lemma {:induction false} SweepTtlFacts(m: Memory, now: int)
    requires Valid(m)
    ensures Within(SweepTtl(m, now), m)
    ensures forall t :: t in m.vals ==> (t in SweepTtl(m, now).vals <==> !Expired(m.vals[t], now))
  {
    DropExpiredFacts(m, m.order, now);
  }

  // ---- forgetting by size ----------------------------------------------------------------------

  /** Position of the first failed entry in `tids`, or their number when there is none. */
  function FirstFail(m: Memory, tids: seq<Tid>): (i: nat)
    ensures i <= |tids|
    ensures i < |tids| ==> tids[i] in m.vals && !m.vals[tids[i]].ok
    ensures forall j :: 0 <= j < i && tids[j] in m.vals ==> m.vals[tids[j]].ok
  {
    if tids == [] || (tids[0] in m.vals && !m.vals[tids[0]].ok) then 0 else 1 + FirstFail(m, tids[1..])
  }

  /** The oldest entry if it has expired, else the oldest failed entry, else the oldest entry. */
  function Victim(m: Memory, now: int): (t: Tid)
    requires m.order != []
    ensures t in m.order
  {
    if m.order[0] in m.vals && Expired(m.vals[m.order[0]], now) then m.order[0]
    else
      var i := FirstFail(m, m.order);
      if i < |m.order| then m.order[i] else m.order[0]
  }

  function EvictOver(m: Memory, limits: Limits, now: int): Memory
    decreases |m.vals|
  {
    if |m.vals| <= limits.cap || m.order == [] || Victim(m, now) !in m.vals then m
    else EvictOver(Delete(m, Victim(m, now)), limits, now)
  }

  /** The entry made when a transfer settles now. */
  function NewEntry(ok: bool, now: int, limits: Limits): Entry { Entry(ok, now + limits.ttl) }

  function Settle(m: Memory, t: Tid, ok: bool, now: int, limits: Limits): Memory {
    EvictOver(Put(m, t, NewEntry(ok, now, limits)), limits, now)
  }

  /** Successes stand in order of expiry, and nothing expires later than an entry made now would. */
  ghost predicate Aged(m: Memory, now: int, limits: Limits) {
    && Valid(m)
    && (forall t :: t in m.vals ==> m.vals[t].expiresAt <= now + limits.ttl)
    && (forall t, u {:trigger Before(m.order, t, u)} ::
          t in m.vals && u in m.vals && m.vals[t].ok && m.vals[u].ok && Before(m.order, t, u) ==>
            m.vals[t].expiresAt <= m.vals[u].expiresAt)
  }

  lemma {:induction false} WithinKeepsAged(a: Memory, b: Memory, now: int, limits: Limits)
    requires Within(a, b) && Aged(b, now, limits)
    ensures Aged(a, now, limits)
  {
  }

  lemma {:induction false} PutKeepsAged(m: Memory, t: Tid, ok: bool, now: int, limits: Limits)
    requires Aged(m, now, limits)
    requires ok ==> t !in m.vals
    ensures Aged(Put(m, t, NewEntry(ok, now, limits)), now, limits)
  {
    var p := Put(m, t, NewEntry(ok, now, limits));
    PutIsValid(m, t, NewEntry(ok, now, limits));
    forall a, b | a in p.vals && b in p.vals && p.vals[a].ok && p.vals[b].ok && Before(p.order, a, b)
      ensures p.vals[a].expiresAt <= p.vals[b].expiresAt
    {
      PutOrder(m, t, NewEntry(ok, now, limits), a, b);
    }
  }

  /** Putting an entry changes the order only by adding a new key at the end. */
  lemma {:induction false} PutOrder(m: Memory, t: Tid, e: Entry, a: Tid, b: Tid)
    requires Valid(m) && Before(Put(m, t, e).order, a, b)
    ensures a in m.vals && (Before(m.order, a, b) || (b == t && t !in m.vals))
  {
    var order := Put(m, t, e).order;
    var i, j :| 0 <= i < j < |order| && order[i] == a && order[j] == b;
    assert m.order[i] == a;
  }

  /** The eviction order is documented as: expired entries first. */
  ghost predicate ExpiredGoFirst(m: Memory, now: int)
    requires Valid(m) && m.order != []
  {
    (exists t :: t in m.vals && Expired(m.vals[t], now)) ==> Expired(m.vals[Victim(m, now)], now)
  }

  /** Eviction looks at the oldest entry and at the first failed one only: it takes an expired entry first if and only if
      one of these has expired, or none has. */
  lemma {:induction false} WhenExpiredGoFirst(m: Memory, now: int)
    requires Valid(m) && m.order != []
    ensures var i := FirstFail(m, m.order);
            ExpiredGoFirst(m, now) <==>
              || (forall t :: t in m.vals ==> !Expired(m.vals[t], now))
              || Expired(m.vals[m.order[0]], now)
              || (i < |m.order| && Expired(m.vals[m.order[i]], now))
  {
    assert m.order[0] in m.vals;
  }

  /** Three deliveries and an error, each settled in turn with room for two: the failure of `a`, recorded where its
      success stood, leaves before `b`, which has expired. */
  lemma {:induction false} FailureLeavesBeforeExpired(a: Tid, b: Tid, c: Tid, ttl: int)
    requires a != b && b != c && a != c && ttl > 0
    ensures var limits := Limits(ttl, 2);
            var two := Settle(Settle(Empty(), a, true, 0, limits), b, true, 0, limits);
            var full := Settle(two, a, false, 1, limits);
            var settled := Settle(full, c, true, ttl, limits);
            && a in full.vals && !Expired(full.vals[a], ttl) && a !in settled.vals
            && b in full.vals && Expired(full.vals[b], ttl) && b in settled.vals
  {
    var limits := Limits(ttl, 2);
    var ok, failed, last := NewEntry(true, 0, limits), NewEntry(false, 1, limits), NewEntry(true, ttl, limits);
    var one: Memory := Put(Empty(), a, ok);
    var two: Memory := Put(one, b, ok);
    var full: Memory := Put(two, a, failed);
    assert one.vals == map[a := ok] && two.vals == map[a := ok, b := ok] && full.vals == map[a := failed, b := ok];
    assert Settle(Empty(), a, true, 0, limits) == one && Settle(one, b, true, 0, limits) == two;
    assert Settle(two, a, false, 1, limits) == full;
    FailureGoes(full, a, b, c, failed, ok, last, limits, ttl);
  }

  lemma {:induction false} FailureGoes(full: Memory, a: Tid, b: Tid, c: Tid, failed: Entry, ok: Entry, last: Entry, limits: Limits, now: int)
    requires a != b && b != c && a != c && limits.cap == 2
    requires full == JsMap([a, b], map[a := failed, b := ok]) && !failed.ok && !Expired(failed, now)
    ensures var settled := EvictOver(Put(full, c, last), limits, now); a !in settled.vals && b in settled.vals
  {
    var over: Memory := Put(full, c, last);
    var left := Delete(over, a);
    assert over.order == [a, b, c] && over.vals == map[a := failed, b := ok, c := last];
    assert Victim(over, now) == a && |over.vals| == 3;
    assert left.vals == map[b := ok, c := last] && |left.vals| == 2;
    assert EvictOver(over, limits, now) == EvictOver(left, limits, now) == left;
  }

  function StillValid(m: Memory, now: int): set<Tid> {
    set t | t in m.vals && m.vals[t].ok && !Expired(m.vals[t], now)
  }

  /** A valid success is chosen only when the map holds nothing else, and then it is the one that expires first. */
  lemma {:induction false} VictimIsLeast(m: Memory, now: int, limits: Limits)
    requires Aged(m, now, limits) && m.order != []
    ensures var v := Victim(m, now);
            v in StillValid(m, now) ==>
              && StillValid(m, now) == m.vals.Keys
              && forall t :: t in m.vals ==> m.vals[v].expiresAt <= m.vals[t].expiresAt
  {
    var v := Victim(m, now);
    if v in StillValid(m, now) {
      forall t | t in m.vals
        ensures m.vals[v].expiresAt <= m.vals[t].expiresAt && t in StillValid(m, now)
      {
        var j :| 0 <= j < |m.order| && m.order[j] == t;
        if t != v {
          assert m.order[0] == v && Before(m.order, v, t);
        }
      }
    }
  }

  /** Why an entry was evicted: it had expired, it had failed, or more than `cap` entries were valid successes. */
  ghost predicate EvictedFairly(m: Memory, r: Memory, t: Tid, limits: Limits, now: int)
    requires t in m.vals
  {
    || Expired(m.vals[t], now)
    || !m.vals[t].ok
    || (|StillValid(m, now)| > limits.cap && forall u :: u in r.vals ==> u in StillValid(m, now) && m.vals[t].expiresAt <= m.vals[u].expiresAt)
  }

  /** Eviction brings the size within the cap, keeps the other entries, and forgets valid successes last, oldest first. */
  lemma {:induction false} EvictionFacts(m: Memory, limits: Limits, now: int)
    requires Aged(m, now, limits)
    ensures var r := EvictOver(m, limits, now);
            && Within(r, m)
            && (|r.vals| <= limits.cap || r.vals == map[])
            && forall t :: t in m.vals && t !in r.vals ==> |m.vals| > limits.cap && EvictedFairly(m, r, t, limits, now)
    decreases |m.vals|
  {
    SizeIsOrder(m);
    if |m.vals| > limits.cap && m.order != [] {
      var v := Victim(m, now);
      var d, r := Delete(m, v), EvictOver(m, limits, now);
      DeleteIsWithin(m, v);
      WithinKeepsAged(d, m, now, limits);
      EvictionFacts(d, limits, now);
      WithinIsTransitive(r, d, m);
      VictimIsLeast(m, now, limits);
      FewerValid(d, m, now);
      assert EvictedFairly(m, r, v, limits, now);
      forall t | t in m.vals && t !in r.vals ensures |m.vals| > limits.cap && EvictedFairly(m, r, t, limits, now) {
        if t != v {
          assert EvictedFairly(d, r, t, limits, now);
        }
      }
    } else if m.order == [] {
      assert m.vals == map[];
    }
  }

  lemma {:induction false} FewerValid(a: Memory, b: Memory, now: int)
    requires Within(a, b)
    ensures StillValid(a, now) <= StillValid(b, now) && |StillValid(a, now)| <= |StillValid(b, now)|
  {
    SubsetSize(StillValid(a, now), StillValid(b, now));
  }

  lemma {:induction false} EvictionOnlyRemoves(m: Memory, limits: Limits, now: int)
    ensures forall t :: t in EvictOver(m, limits, now).vals ==> t in m.vals && EvictOver(m, limits, now).vals[t] == m.vals[t]
    decreases |m.vals|
  {
    if !(|m.vals| <= limits.cap || m.order == [] || Victim(m, now) !in m.vals) {
      EvictionOnlyRemoves(Delete(m, Victim(m, now)), limits, now);
    }
  }

  /** After settling `t`, memory holds nothing but earlier entries and the new one. */
  lemma {:induction false} SettleKeys(m: Memory, t: Tid, ok: bool, now: int, limits: Limits)
    ensures var r := Settle(m, t, ok, now, limits);
            forall u :: u in r.vals ==>
              if u == t then r.vals[u] == NewEntry(ok, now, limits) else u in m.vals && r.vals[u] == m.vals[u]
  {
    EvictionOnlyRemoves(Put(m, t, NewEntry(ok, now, limits)), limits, now);
  }

  /** What is gone had expired, or had failed and was one of more than `cap` entries, or was one of more than `cap`
      valid successes. */
  ghost predicate FairlyGone(before: Memory, t: Tid, now: int, limits: Limits)
    requires t in before.vals
  {
    || Expired(before.vals[t], now)
    || (!before.vals[t].ok && |before.vals| > limits.cap)
    || |StillValid(before, now)| > limits.cap
  }

  ghost predicate FairlyRemoved(before: Memory, after: Memory, now: int, limits: Limits) {
    && Within(after, before)
    && forall t :: t in before.vals && t !in after.vals ==> FairlyGone(before, t, now, limits)
  }

  lemma {:induction false} SettleIsFair(m: Memory, t: Tid, ok: bool, now: int, limits: Limits)
    requires Aged(Put(m, t, NewEntry(ok, now, limits)), now, limits)
    ensures FairlyRemoved(Put(m, t, NewEntry(ok, now, limits)), Settle(m, t, ok, now, limits), now, limits)
  {
    var p, r := Put(m, t, NewEntry(ok, now, limits)), Settle(m, t, ok, now, limits);
    EvictionFacts(p, limits, now);
    forall u | u in p.vals && u !in r.vals
      ensures FairlyGone(p, u, now, limits)
    {
      assert EvictedFairly(p, r, u, limits, now);
    }
  }

  lemma {:induction false} SweepIsFair(m: Memory, now: int, limits: Limits)
    requires Valid(m)
    ensures FairlyRemoved(m, SweepTtl(m, now), now, limits)
  {
    SweepTtlFacts(m, now);
  }

  /** Each settling leaves the map within the cap; an entry that is still a valid success goes only from a map full of them. */
  lemma {:induction false} SettleFacts(m: Memory, t: Tid, ok: bool, now: int, limits: Limits)
    requires Aged(m, now, limits)
    requires ok ==> t !in m.vals
    ensures var p, r := Put(m, t, NewEntry(ok, now, limits)), Settle(m, t, ok, now, limits);
            && Aged(r, now, limits) && Within(r, p)
            && (|r.vals| <= limits.cap || r.vals == map[])
            && forall u :: u in p.vals && u !in r.vals ==> |p.vals| > limits.cap && EvictedFairly(p, r, u, limits, now)
  {
    var p := Put(m, t, NewEntry(ok, now, limits));
    PutKeepsAged(m, t, ok, now, limits);
    EvictionFacts(p, limits, now);
    WithinKeepsAged(Settle(m, t, ok, now, limits), p, now, limits);
  }
}
