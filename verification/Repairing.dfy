/** A transfer completes whatever the order of arrival, and a nack brings back exactly what is missing. */
module Repairing {
  import opened Outcomes
  import opened Text
  import opened Json
  import opened Split
  import opened Ordered
  import opened Settlement
  import opened Deliveries
  import opened Packets
  import opened Receiving
  import opened ReceiverSafety
  import opened Sending

  // ---- what a partial transfer has seen ----------------------------------------------------------

  /** The partial transfer holds exactly those packets of the value that are in `seen`. */
  predicate Reflects(s: Partial, t: Tid, u: Unit, seen: set<Packet>) {
    && FromUnit(s, u)
    && (s.manifest.Some? <==> ManifestPacket(t, ManifestOf(u.packed)) in seen)
    && (s.complete <==> CompletePacket(t) in seen)
    && (forall i :: 0 <= i < |u.packed.chunks| ==> ReflectsChunk(s, t, u.packed.chunks[i], seen))
  }

  predicate ReflectsChunk(s: Partial, t: Tid, c: Chunk, seen: set<Packet>) {
    HasChunk(s.buffer, c) <==> ChunkPacket(t, c, true) in seen
  }

  /** Every packet of the transmission has been seen. */
  predicate Covers(seen: set<Packet>, t: Tid, u: Unit) {
    forall i :: 0 <= i < |Transmission(t, u.packed)| ==> Transmission(t, u.packed)[i] in seen
  }

  lemma {:induction false} CoversMeansWhole(s: Partial, t: Tid, u: Unit, seen: set<Packet>)
    requires Reflects(s, t, u, seen)
    ensures Covers(seen, t, u) <==> Whole(s, u)
  {
    var all, chunks := Transmission(t, u.packed), u.packed.chunks;
    assert all[0] == ManifestPacket(t, ManifestOf(u.packed));
    assert all[|chunks| + 1] == CompletePacket(t);
    if Covers(seen, t, u) {
      forall i | 0 <= i < |chunks| ensures HasChunk(s.buffer, chunks[i]) {
        assert all[i + 1] == ChunkPacket(t, chunks[i], true);
        assert ReflectsChunk(s, t, chunks[i], seen);
      }
    }
    if Whole(s, u) {
      forall i | 0 <= i < |all| ensures all[i] in seen {
        if 0 < i <= |chunks| {
          assert all[i] == ChunkPacket(t, chunks[i - 1], true);
          assert ReflectsChunk(s, t, chunks[i - 1], seen) && HasChunk(s.buffer, chunks[i - 1]);
        }
      }
    }
  }

  /** Damaged chunks are not seen. */
  function See(seen: set<Packet>, p: Packet): set<Packet> {
    if p.ChunkPacket? && !p.intact then seen else seen + {p}
  }

  lemma {:induction false} AcceptReflects(s: Partial, p: Packet, now: int, t: Tid, u: Unit, seen: set<Packet>)
    requires Reflects(s, t, u, seen) && ValidManifest(u.packed.root, u.packed.refs) && ChunksMatch(u.packed.refs, u.packed.chunks)
    requires IsData(p) && p.tid == t && (BelongsTo(p, u.packed) || (p.ChunkPacket? && !p.intact))
    ensures Reflects(AcceptInto(s, p, now).0, t, u, See(seen, p)) && AcceptInto(s, p, now).1
    ensures AcceptInto(s, p, now).0.updatedAt == s.updatedAt || AcceptInto(s, p, now).0.updatedAt == now
  {
    AcceptKeepsUnit(s, p, now, u);
    var s', seen' := AcceptInto(s, p, now).0, See(seen, p);
    forall i | 0 <= i < |u.packed.chunks| ensures ReflectsChunk(s', t, u.packed.chunks[i], seen') {
      assert ReflectsChunk(s, t, u.packed.chunks[i], seen);
      if p.ChunkPacket? && p.intact {
        ChunkReflects(s, p.chunk, now, t, u, seen, i);
      }
    }
  }

  lemma {:induction false} ChunkReflects(s: Partial, chunk: Chunk, now: int, t: Tid, u: Unit, seen: set<Packet>, i: nat)
    requires FromUnit(s, u) && DistinctRefs(u.packed.refs) && ChunksMatch(u.packed.refs, u.packed.chunks)
    requires i < |u.packed.chunks| && chunk in u.packed.chunks && ReflectsChunk(s, t, u.packed.chunks[i], seen)
    ensures ReflectsChunk(AcceptChunk(s, chunk, true, now), t, u.packed.chunks[i], seen + {ChunkPacket(t, chunk, true)})
  {
    var c := u.packed.chunks[i];
    FittingMatches(u, chunk);
    if HasIndex(s.buffer, chunk.cid, chunk.index) {
      assert IsFiled(u.packed.chunks, chunk.cid, chunk.index, s.buffer[chunk.cid][chunk.index]);
    }
    assert c.cid == chunk.cid && c.index == chunk.index ==> c == chunk;
  }

  // ---- one packet at the receiver ----------------------------------------------------------------

  /** The partial transfer a packet of `t` meets. */
  function PartialOf(r: Receiver, t: Tid, now: int): Partial {
    if t in r.states.vals then r.states.vals[t].(updatedAt := now) else Partial(None, false, now, map[])
  }

  /** The transfer is not settled, and what was received of it is still kept. */
  predicate InProgress(r: Receiver, c: Config, now: int, t: Tid) {
    && t !in r.settled.vals
    && (t in r.states.vals && c.partialTtlMs > 0 ==> !PartialExpired(r.states.vals[t], c, now))
  }

  /** Neither settling nor dropping other transfers touches this one. */
  predicate Spares(r: Receiver, r': Receiver, t: Tid) {
    && t !in r'.settled.vals && r'.delivered == r.delivered
    && (t in r'.states.vals <==> t in r.states.vals)
    && (t in r.states.vals ==> r'.states.vals[t] == r.states.vals[t])
  }

  lemma {:induction false} ExpirySpares(r: Receiver, c: Config, now: int, tids: seq<Tid>, t: Tid)
    requires t !in r.settled.vals && (t in r.states.vals ==> !PartialExpired(r.states.vals[t], c, now))
    ensures Spares(r, ExpirePartials(r, c, now, tids), t)
    decreases tids
  {
    if tids != [] {
      if tids[0] in r.states.vals && PartialExpired(r.states.vals[tids[0]], c, now) {
        SettleKeys(r.settled, tids[0], false, now, c.limits);
        ExpirySpares(Abandon(r, c, now, tids[0]), c, now, tids[1..], t);
      } else {
        ExpirySpares(r, c, now, tids[1..], t);
      }
    }
  }

  lemma {:induction false} CleanupSpares(r: Receiver, c: Config, now: int, t: Tid)
    requires Valid(r.settled) && InProgress(r, c, now, t)
    ensures Spares(r, Cleanup(r, c, now), t)
  {
    SweepTtlFacts(r.settled, now);
    if c.partialTtlMs > 0 {
      ExpirySpares(SweepSettled(r, now), c, now, SweepSettled(r, now).states.order, t);
    }
  }

  predicate IsPacketOf(p: Packet, t: Tid, u: Unit) {
    IsData(p) && p.tid == t && (BelongsTo(p, u.packed) || (p.ChunkPacket? && !p.intact))
  }

  /** What `t` has come to after its packets `seen` arrived, the last of them now. */
  predicate Progresses(r: Receiver, r': Receiver, out: seq<Packet>, now: int, t: Tid, u: Unit, seen: set<Packet>) {
    if Covers(seen, t, u) then
      && r'.delivered == r.delivered + [Delivery(t, u.data, now)] && out == [AckPacket(t)]
    else
      && r'.delivered == r.delivered && out == []
      && t !in r'.settled.vals && t in r'.states.vals
      && Reflects(r'.states.vals[t], t, u, seen) && r'.states.vals[t].updatedAt == now
  }

  /** One packet of a transfer in progress: it is delivered and acknowledged exactly when its last packet is there. */
  lemma {:induction false} PacketArrives(r: Receiver, c: Config, now: int, p: Packet, t: Tid, u: Unit, seen: set<Packet>)
    requires Valid(r.settled) && InProgress(r, c, now, t) && Genuine(u.packed, u.data)
    requires Reflects(PartialOf(r, t, now), t, u, seen) && IsPacketOf(p, t, u)
    ensures var (r', out) := Receive(r, c, now, p); Progresses(r, r', out, now, t, u, See(seen, p))
  {
    var touched := Touch(r, c, now, t);
    CleanupSpares(r, c, now, t);
    assert touched.states.vals[t] == PartialOf(r, t, now);
    AcceptReflects(PartialOf(r, t, now), p, now, t, u, seen);
    var s := AcceptInto(PartialOf(r, t, now), p, now).0;
    YieldIsExact(s, u);
    CoversMeansWhole(s, t, u, See(seen, p));
  }

  // ---- any order, any repetition -----------------------------------------------------------------

  datatype Arrival = Arrival(at: int, packet: Packet)

  function Feed(r: Receiver, c: Config, arrivals: seq<Arrival>): Receiver {
    if arrivals == [] then r
    else
      var last := arrivals[|arrivals| - 1];
      Receive(Feed(r, c, arrivals[..|arrivals| - 1]), c, last.at, last.packet).0
  }

  function Seen(arrivals: seq<Arrival>): set<Packet> {
    if arrivals == [] then {} else See(Seen(arrivals[..|arrivals| - 1]), arrivals[|arrivals| - 1].packet)
  }

  /** No packet comes so late that what arrived before it has expired, and the memory has room for one transfer. */
  predicate Timely(arrivals: seq<Arrival>, c: Config) {
    && c.limits.cap >= 1
    && forall i :: 0 < i < |arrivals| ==> c.partialTtlMs <= 0 || arrivals[i].at - arrivals[i - 1].at <= c.partialTtlMs
  }

  const NOBODY := Receiver(Empty(), {}, Empty(), [], [])

  /** The state of a receiver that has heard of one transfer only. */
  predicate Fed(r: Receiver, c: Config, arrivals: seq<Arrival>, t: Tid, u: Unit) {
    && (forall k :: k in r.states.vals ==> k == t)
    && if Covers(Seen(arrivals), t, u) then
         exists i :: 0 <= i < |arrivals| && FirstCovers(arrivals, i, t, u)
           && r.delivered == [Delivery(t, u.data, arrivals[i].at)]
           && r.settled == Put(Empty(), t, NewEntry(true, arrivals[i].at, c.limits))
       else
         && r.delivered == [] && r.settled == Empty()
         && (arrivals == [] ==> r.states == Empty())
         && (arrivals != [] ==> t in r.states.vals && Reflects(r.states.vals[t], t, u, Seen(arrivals))
                                && r.states.vals[t].updatedAt == arrivals[|arrivals| - 1].at)
  }

  /** Packet `i` is the one that completes the transfer. */
  predicate FirstCovers(arrivals: seq<Arrival>, i: nat, t: Tid, u: Unit)
    requires i < |arrivals|
  {
    Covers(Seen(arrivals[..i + 1]), t, u) && !Covers(Seen(arrivals[..i]), t, u)
  }

  lemma {:induction false} ExpiryIdle(r: Receiver, c: Config, now: int, tids: seq<Tid>)
    requires forall k :: k in r.states.vals ==> !PartialExpired(r.states.vals[k], c, now)
    ensures ExpirePartials(r, c, now, tids) == r
    decreases tids
  {
    if tids != [] {
      ExpiryIdle(r, c, now, tids[1..]);
    }
  }

  lemma {:induction false} CleanupIdle(r: Receiver, c: Config, now: int, t: Tid)
    requires r.settled == Empty() && InProgress(r, c, now, t) && forall k :: k in r.states.vals ==> k == t
    ensures Cleanup(r, c, now).settled == Empty() && Cleanup(r, c, now).states == r.states
  {
    if c.partialTtlMs > 0 {
      ExpiryIdle(SweepSettled(r, now), c, now, SweepSettled(r, now).states.order);
    }
  }

  lemma {:induction false} SettleFirst(t: Tid, now: int, limits: Limits)
    requires limits.cap >= 1
    ensures Settle(Empty(), t, true, now, limits) == Put(Empty(), t, NewEntry(true, now, limits))
  {
    assert Put(Empty(), t, NewEntry(true, now, limits)).vals == map[t := NewEntry(true, now, limits)];
  }

  lemma {:induction false} NothingSeen(t: Tid, u: Unit, now: int)
    ensures Reflects(Partial(None, false, now, map[]), t, u, {}) && !Covers({}, t, u)
  {
    var none: set<Packet> := {};
    var first := Transmission(t, u.packed)[0];
    assert first !in none;
    forall i | 0 <= i < |u.packed.chunks|
      ensures ReflectsChunk(Partial(None, false, now, map[]), t, u.packed.chunks[i], {})
    {
    }
  }

  lemma {:induction false} BeforeDelivery(r: Receiver, c: Config, arrivals: seq<Arrival>, t: Tid, u: Unit)
    requires arrivals != [] && Genuine(u.packed, u.data) && Timely(arrivals, c)
    requires IsPacketOf(arrivals[|arrivals| - 1].packet, t, u)
    requires Fed(r, c, arrivals[..|arrivals| - 1], t, u) && !Covers(Seen(arrivals[..|arrivals| - 1]), t, u)
    ensures var last := arrivals[|arrivals| - 1];
            Fed(Receive(r, c, last.at, last.packet).0, c, arrivals, t, u)
  {
    var earlier, last := arrivals[..|arrivals| - 1], arrivals[|arrivals| - 1];
    var (r', out) := Receive(r, c, last.at, last.packet);
    WaitingForNext(r, c, arrivals, t, u);
    PacketArrives(r, c, last.at, last.packet, t, u, Seen(earlier));
    OnlyThisTransfer(r, c, last.at, last.packet, t);
    FedByLast(r', out, c, arrivals, t, u);
  }

  lemma {:induction false} FedByLast(r: Receiver, out: seq<Packet>, c: Config, arrivals: seq<Arrival>, t: Tid, u: Unit)
    requires arrivals != [] && !Covers(Seen(arrivals[..|arrivals| - 1]), t, u) && forall k :: k in r.states.vals ==> k == t
    requires Progresses(NOBODY, r, out, arrivals[|arrivals| - 1].at, t, u, Seen(arrivals))
    requires r.settled == if r.delivered == [] then Empty() else Put(Empty(), t, NewEntry(true, arrivals[|arrivals| - 1].at, c.limits))
    ensures Fed(r, c, arrivals, t, u)
  {
    if Covers(Seen(arrivals), t, u) {
      assert arrivals[..|arrivals| - 1 + 1] == arrivals;
      assert FirstCovers(arrivals, |arrivals| - 1, t, u);
    }
  }

  /** A receiver that has heard of one transfer only goes on knowing just this one. */
  lemma {:induction false} OnlyThisTransfer(r: Receiver, c: Config, now: int, p: Packet, t: Tid)
    requires r.settled == Empty() && r.delivered == [] && c.limits.cap >= 1 && InProgress(r, c, now, t)
    requires IsData(p) && p.tid == t && forall k :: k in r.states.vals ==> k == t
    ensures var r' := Receive(r, c, now, p).0;
            && (forall k :: k in r'.states.vals ==> k == t)
            && (r'.delivered == [] ==> r'.settled == Empty())
            && (r'.delivered != [] ==> r'.settled == Put(Empty(), t, NewEntry(true, now, c.limits)))
  {
    CleanupIdle(r, c, now, t);
    CleanupSpares(r, c, now, t);
    SettleFirst(t, now, c.limits);
  }

  lemma {:induction false} WaitingForNext(r: Receiver, c: Config, arrivals: seq<Arrival>, t: Tid, u: Unit)
    requires arrivals != [] && Timely(arrivals, c)
    requires Fed(r, c, arrivals[..|arrivals| - 1], t, u) && !Covers(Seen(arrivals[..|arrivals| - 1]), t, u)
    ensures Valid(r.settled) && InProgress(r, c, arrivals[|arrivals| - 1].at, t)
    ensures Reflects(PartialOf(r, t, arrivals[|arrivals| - 1].at), t, u, Seen(arrivals[..|arrivals| - 1]))
  {
    var earlier := arrivals[..|arrivals| - 1];
    if earlier == [] {
      NothingSeen(t, u, arrivals[|arrivals| - 1].at);
    } else {
      assert earlier[|earlier| - 1] == arrivals[|arrivals| - 2];
      var s := r.states.vals[t];
      forall i | 0 <= i < |u.packed.chunks|
        ensures ReflectsChunk(s.(updatedAt := arrivals[|arrivals| - 1].at), t, u.packed.chunks[i], Seen(earlier))
      {
        assert ReflectsChunk(s, t, u.packed.chunks[i], Seen(earlier));
      }
    }
  }

  lemma {:induction false} SettledIgnores(r: Receiver, c: Config, now: int, p: Packet)
    requires IsData(p) && p.tid in r.settled.vals
    ensures Receive(r, c, now, p).0 == r
  {
  }

  lemma {:induction false} SeenGrows(arrivals: seq<Arrival>, t: Tid, u: Unit)
    requires arrivals != [] && Covers(Seen(arrivals[..|arrivals| - 1]), t, u)
    ensures Covers(Seen(arrivals), t, u)
  {
  }

  lemma {:induction false} AfterDelivery(r: Receiver, c: Config, arrivals: seq<Arrival>, t: Tid, u: Unit)
    requires arrivals != [] && IsPacketOf(arrivals[|arrivals| - 1].packet, t, u)
    requires Fed(r, c, arrivals[..|arrivals| - 1], t, u) && Covers(Seen(arrivals[..|arrivals| - 1]), t, u)
    ensures var last := arrivals[|arrivals| - 1];
            Fed(Receive(r, c, last.at, last.packet).0, c, arrivals, t, u)
  {
    var earlier, last := arrivals[..|arrivals| - 1], arrivals[|arrivals| - 1];
    SettledIgnores(r, c, last.at, last.packet);
    SeenGrows(arrivals, t, u);
    var i :| 0 <= i < |earlier| && FirstCovers(earlier, i, t, u)
             && r.delivered == [Delivery(t, u.data, earlier[i].at)]
             && r.settled == Put(Empty(), t, NewEntry(true, earlier[i].at, c.limits));
    FirstCoversStays(arrivals, i, t, u);
  }

  lemma {:induction false} FirstCoversStays(arrivals: seq<Arrival>, i: nat, t: Tid, u: Unit)
    requires i < |arrivals| - 1 && FirstCovers(arrivals[..|arrivals| - 1], i, t, u)
    ensures FirstCovers(arrivals, i, t, u)
  {
    var earlier := arrivals[..|arrivals| - 1];
    assert earlier[..i] == arrivals[..i] && earlier[..i + 1] == arrivals[..i + 1];
  }

  /** A receiver that has heard of nothing else: delivered once, and further packets change nothing. */
  lemma {:induction false} FeedAlone(c: Config, arrivals: seq<Arrival>, t: Tid, u: Unit)
    requires Genuine(u.packed, u.data) && Timely(arrivals, c)
    requires forall i :: 0 <= i < |arrivals| ==> IsPacketOf(arrivals[i].packet, t, u)
    ensures Fed(Feed(NOBODY, c, arrivals), c, arrivals, t, u)
  {
    if arrivals == [] {
      NothingSeen(t, u, 0);
    } else {
      var earlier := arrivals[..|arrivals| - 1];
      FeedAlone(c, earlier, t, u);
      if Covers(Seen(earlier), t, u) {
        AfterDelivery(Feed(NOBODY, c, earlier), c, arrivals, t, u);
      } else {
        BeforeDelivery(Feed(NOBODY, c, earlier), c, arrivals, t, u);
      }
    }
  }

  // ---- among the packets of others -----------------------------------------------------------------

  /** The transfer stays in progress as it was, whatever else is delivered or settled. */
  ghost predicate LeavesAlone(r: Receiver, r': Receiver, t: Tid) {
    && t !in r'.settled.vals
    && (t in r'.states.vals <==> t in r.states.vals)
    && (t in r.states.vals ==> r'.states.vals[t] == r.states.vals[t])
    && OthersDelivered(r, r', t)
  }

  /** Only other transfers have been delivered since. */
  ghost predicate OthersDelivered(r: Receiver, r': Receiver, t: Tid) {
    r.delivered <= r'.delivered && forall i :: |r.delivered| <= i < |r'.delivered| ==> r'.delivered[i].tid != t
  }

  lemma {:induction false} OthersDeliveredMore(a: Receiver, b: Receiver, d: Receiver, t: Tid)
    requires OthersDelivered(a, b, t) && OthersDelivered(b, d, t)
    ensures OthersDelivered(a, d, t)
  {
    forall i | |a.delivered| <= i < |d.delivered| ensures d.delivered[i].tid != t {
      assert i < |b.delivered| ==> d.delivered[i] == b.delivered[i];
    }
  }

  /** A packet of another transfer, honest or not, does not touch this one. */
  lemma {:induction false} OthersLeaveAlone(r: Receiver, c: Config, now: int, p: Packet, t: Tid)
    requires Valid(r.settled) && p.tid != t && t !in r.settled.vals && (IsData(p) ==> InProgress(r, c, now, t))
    ensures LeavesAlone(r, Receive(r, c, now, p).0, t)
  {
    if p.ErrorPacket? {
      SettleKeys(r.settled, p.tid, false, now, c.limits);
    } else if IsData(p) && p.tid !in r.settled.vals {
      var (stored, yielded) := TakeIn(r, c, now, p);
      TakingInSpares(r, c, now, p, t);
      FinishingSpares(stored, c, now, p.tid, yielded, t);
      assert r.delivered == stored.delivered;
    }
  }

  lemma {:induction false} TakingInSpares(r: Receiver, c: Config, now: int, p: Packet, t: Tid)
    requires Valid(r.settled) && p.tid != t && InProgress(r, c, now, t)
    ensures Spares(r, TakeIn(r, c, now, p).0, t)
  {
    CleanupSpares(r, c, now, t);
  }

  lemma {:induction false} FinishingSpares(r: Receiver, c: Config, now: int, other: Tid, yielded: Option<Json>, t: Tid)
    requires other != t && t !in r.settled.vals
    ensures LeavesAlone(r, Finish(r, c, now, other, yielded).0, t)
  {
    if yielded.Some? {
      SettleKeys(r.settled, other, true, now, c.limits);
    }
  }

  lemma {:induction false} EvictionIsValid(m: Memory, limits: Limits, now: int)
    requires Valid(m)
    ensures Valid(EvictOver(m, limits, now))
    decreases |m.vals|
  {
    if !(|m.vals| <= limits.cap || m.order == [] || Victim(m, now) !in m.vals) {
      DeleteIsValid(m, Victim(m, now));
      EvictionIsValid(Delete(m, Victim(m, now)), limits, now);
    }
  }

  lemma {:induction false} SettleIsValid(m: Memory, t: Tid, ok: bool, now: int, limits: Limits)
    requires Valid(m)
    ensures Valid(Settle(m, t, ok, now, limits))
  {
    PutIsValid(m, t, NewEntry(ok, now, limits));
    EvictionIsValid(Put(m, t, NewEntry(ok, now, limits)), limits, now);
  }

  lemma {:induction false} ExpiryIsValid(r: Receiver, c: Config, now: int, tids: seq<Tid>)
    requires Valid(r.settled)
    ensures Valid(ExpirePartials(r, c, now, tids).settled)
    decreases tids
  {
    if tids != [] {
      if tids[0] in r.states.vals && PartialExpired(r.states.vals[tids[0]], c, now) {
        SettleIsValid(r.settled, tids[0], false, now, c.limits);
        ExpiryIsValid(Abandon(r, c, now, tids[0]), c, now, tids[1..]);
      } else {
        ExpiryIsValid(r, c, now, tids[1..]);
      }
    }
  }

  lemma {:induction false} ReceiveIsValid(r: Receiver, c: Config, now: int, p: Packet)
    requires Valid(r.settled)
    ensures Valid(Receive(r, c, now, p).0.settled)
  {
    if p.ErrorPacket? {
      SettleIsValid(r.settled, p.tid, false, now, c.limits);
    } else if IsData(p) && p.tid !in r.settled.vals {
      SweepTtlFacts(r.settled, now);
      ExpiryIsValid(SweepSettled(r, now), c, now, SweepSettled(r, now).states.order);
      SettleIsValid(TakeIn(r, c, now, p).0.settled, p.tid, true, now, c.limits);
    }
  }

  /** The packets of `t` that have arrived undamaged. */
  function SeenOf(arrivals: seq<Arrival>, t: Tid): set<Packet> {
    if arrivals == [] then {}
    else
      var before, p := SeenOf(arrivals[..|arrivals| - 1], t), arrivals[|arrivals| - 1].packet;
      if p.tid == t then See(before, p) else before
  }

  /** Position of the last packet of `t`, or -1. */
  function LastOf(arrivals: seq<Arrival>, t: Tid): (i: int)
    ensures -1 <= i < |arrivals|
  {
    if arrivals == [] then -1
    else if arrivals[|arrivals| - 1].packet.tid == t then |arrivals| - 1
    else LastOf(arrivals[..|arrivals| - 1], t)
  }

  /** When this data arrives, what came of `t` before has not expired. */
  predicate InTime(arrivals: seq<Arrival>, i: nat, c: Config, t: Tid)
    requires i < |arrivals|
  {
    var k := LastOf(arrivals[..i], t);
    IsData(arrivals[i].packet) && k >= 0 && c.partialTtlMs > 0 ==> arrivals[i].at - arrivals[k].at <= c.partialTtlMs
  }

  /** Packets of this value, and of others, none so late that what came of this value has expired. */
  ghost predicate Mixed(arrivals: seq<Arrival>, c: Config, t: Tid, u: Unit) {
    forall i {:trigger InTime(arrivals, i, c, t)} :: 0 <= i < |arrivals| ==>
      InTime(arrivals, i, c, t) && (arrivals[i].packet.tid == t ==> IsPacketOf(arrivals[i].packet, t, u))
  }

  lemma {:induction false} MixedBefore(arrivals: seq<Arrival>, c: Config, t: Tid, u: Unit)
    requires arrivals != [] && Mixed(arrivals, c, t, u)
    ensures Mixed(arrivals[..|arrivals| - 1], c, t, u)
  {
    var before := arrivals[..|arrivals| - 1];
    forall i | 0 <= i < |before|
      ensures InTime(before, i, c, t) && (before[i].packet.tid == t ==> IsPacketOf(before[i].packet, t, u))
    {
      assert InTime(arrivals, i, c, t);
      assert before[..i] == arrivals[..i];
    }
  }

  /** Nothing of `t` was delivered yet; what has arrived of it is kept. */
  ghost predicate Gathers(start: Receiver, r: Receiver, arrivals: seq<Arrival>, t: Tid, u: Unit) {
    && Valid(r.settled) && t !in r.settled.vals
    && OthersDelivered(start, r, t)
    && (LastOf(arrivals, t) < 0 ==> t !in r.states.vals && SeenOf(arrivals, t) == {})
    && (LastOf(arrivals, t) >= 0 ==> t in r.states.vals && Reflects(r.states.vals[t], t, u, SeenOf(arrivals, t))
                                     && r.states.vals[t].updatedAt == arrivals[LastOf(arrivals, t)].at)
  }

  lemma {:induction false} GatheringIsInProgress(start: Receiver, r: Receiver, c: Config, arrivals: seq<Arrival>, t: Tid, u: Unit)
    requires arrivals != [] && Gathers(start, r, arrivals[..|arrivals| - 1], t, u) && InTime(arrivals, |arrivals| - 1, c, t)
    ensures var last := arrivals[|arrivals| - 1];
            && (IsData(last.packet) ==> InProgress(r, c, last.at, t))
            && Reflects(PartialOf(r, t, last.at), t, u, SeenOf(arrivals[..|arrivals| - 1], t))
  {
    var before, last := arrivals[..|arrivals| - 1], arrivals[|arrivals| - 1];
    if LastOf(before, t) < 0 {
      NothingSeen(t, u, last.at);
    } else {
      ReflectsAnyTime(r.states.vals[t], last.at, t, u, SeenOf(before, t));
    }
  }

  /** A packet of another transfer. */
  lemma {:induction false} GathersOn(start: Receiver, r: Receiver, c: Config, arrivals: seq<Arrival>, t: Tid, u: Unit)
    requires arrivals != [] && Gathers(start, r, arrivals[..|arrivals| - 1], t, u) && InTime(arrivals, |arrivals| - 1, c, t)
    requires arrivals[|arrivals| - 1].packet.tid != t
    ensures var last := arrivals[|arrivals| - 1]; Gathers(start, Receive(r, c, last.at, last.packet).0, arrivals, t, u)
  {
    var before, last := arrivals[..|arrivals| - 1], arrivals[|arrivals| - 1];
    var r' := Receive(r, c, last.at, last.packet).0;
    GatheringIsInProgress(start, r, c, arrivals, t, u);
    OthersLeaveAlone(r, c, last.at, last.packet, t);
    OthersDeliveredMore(start, r, r', t);
    ReceiveIsValid(r, c, last.at, last.packet);
  }

  /** A packet of this transfer: the one that completes it delivers it, any other is kept. */
  lemma {:induction false} GathersOneMore(start: Receiver, r: Receiver, c: Config, arrivals: seq<Arrival>, t: Tid, u: Unit)
    requires arrivals != [] && Gathers(start, r, arrivals[..|arrivals| - 1], t, u) && InTime(arrivals, |arrivals| - 1, c, t)
    requires Genuine(u.packed, u.data) && IsPacketOf(arrivals[|arrivals| - 1].packet, t, u)
    ensures var last := arrivals[|arrivals| - 1];
            var r' := Receive(r, c, last.at, last.packet).0;
            if Covers(SeenOf(arrivals, t), t, u) then r'.delivered == r.delivered + [Delivery(t, u.data, last.at)]
            else Gathers(start, r', arrivals, t, u)
  {
    var before, last := arrivals[..|arrivals| - 1], arrivals[|arrivals| - 1];
    GatheringIsInProgress(start, r, c, arrivals, t, u);
    PacketArrives(r, c, last.at, last.packet, t, u, SeenOf(before, t));
    ReceiveIsValid(r, c, last.at, last.packet);
  }

  /** Packet `i` is the one that completes the transfer. */
  predicate Completing(arrivals: seq<Arrival>, t: Tid, u: Unit)
    requires arrivals != []
  {
    Covers(SeenOf(arrivals, t), t, u) && !Covers(SeenOf(arrivals[..|arrivals| - 1], t), t, u)
  }

  /** The packets of one transfer in any order, with any repetitions and damaged copies among them, and among any packets
      of other transfers, at any receiver that has not heard of it: the value is delivered at the very packet that
      completes it, and not before. */
  lemma {:induction false} FeedInAnyOrder(start: Receiver, c: Config, arrivals: seq<Arrival>, t: Tid, u: Unit)
    requires Valid(start.settled) && t !in start.settled.vals && t !in start.states.vals
    requires Genuine(u.packed, u.data) && Mixed(arrivals, c, t, u)
    ensures !Covers(SeenOf(arrivals, t), t, u) ==> Gathers(start, Feed(start, c, arrivals), arrivals, t, u)
    ensures arrivals != [] && Completing(arrivals, t, u) ==>
              var before, last := arrivals[..|arrivals| - 1], arrivals[|arrivals| - 1];
              && OthersDelivered(start, Feed(start, c, before), t)
              && Feed(start, c, arrivals).delivered == Feed(start, c, before).delivered + [Delivery(t, u.data, last.at)]
  {
    if arrivals == [] {
      NothingSeen(t, u, 0);
    } else {
      var before := arrivals[..|arrivals| - 1];
      MixedBefore(arrivals, c, t, u);
      FeedInAnyOrder(start, c, before, t, u);
      assert InTime(arrivals, |arrivals| - 1, c, t);
      if Covers(SeenOf(before, t), t, u) {
        CoversGrows(arrivals, t, u);
      } else if arrivals[|arrivals| - 1].packet.tid == t {
        GathersOneMore(start, Feed(start, c, before), c, arrivals, t, u);
      } else {
        GathersOn(start, Feed(start, c, before), c, arrivals, t, u);
      }
    }
  }

  lemma {:induction false} CoversGrows(arrivals: seq<Arrival>, t: Tid, u: Unit)
    requires arrivals != [] && Covers(SeenOf(arrivals[..|arrivals| - 1], t), t, u)
    ensures Covers(SeenOf(arrivals, t), t, u)
  {
  }

  // ---- what a nack brings back ---------------------------------------------------------------------

  /** The partial transfer does not hold this packet of its value. */
  predicate Lacks(s: Partial, p: Packet) {
    match p
    case ManifestPacket(_, _) => s.manifest.None?
    case ChunkPacket(_, chunk, _) => !HasChunk(s.buffer, chunk)
    case _ => !s.complete
  }

  lemma {:induction false} MissingIndicesAre(b: Buffer, cid: JsString, n: nat)
    ensures forall i :: i in MissingIndices(b, cid, n) <==> 0 <= i < n && !HasIndex(b, cid, i)
  {
    if n > 0 {
      MissingIndicesAre(b, cid, n - 1);
    }
  }

  ghost predicate AskedFor(wanted: seq<Missing>, cid: JsString, index: nat) {
    exists i :: 0 <= i < |wanted| && wanted[i].cid == cid && index in wanted[i].indices
  }

  ghost predicate IsMissing(b: Buffer, refs: seq<ChunkRef>, cid: JsString, index: nat) {
    exists i :: 0 <= i < |refs| && refs[i].cid == cid && index < refs[i].chunks && !HasIndex(b, cid, index)
  }

  lemma {:induction false} AskedForAppend(a: seq<Missing>, b: seq<Missing>, cid: JsString, index: nat)
    ensures AskedFor(a + b, cid, index) <==> AskedFor(a, cid, index) || AskedFor(b, cid, index)
  {
    if AskedFor(a, cid, index) {
      var i :| 0 <= i < |a| && a[i].cid == cid && index in a[i].indices;
      assert (a + b)[i] == a[i];
    } else if AskedFor(b, cid, index) {
      var i :| 0 <= i < |b| && b[i].cid == cid && index in b[i].indices;
      assert (a + b)[|a| + i] == b[i];
    }
  }

  /** What a nack asks for of one reference. */
  lemma {:induction false} AskedOfOne(b: Buffer, ref: ChunkRef, cid: JsString, index: nat)
    ensures var indices := MissingIndices(b, ref.cid, ref.chunks);
            AskedFor(if indices == [] then [] else [Missing(ref.cid, indices)], cid, index) <==>
              ref.cid == cid && index < ref.chunks && !HasIndex(b, cid, index)
  {
    var indices := MissingIndices(b, ref.cid, ref.chunks);
    var entry := if indices == [] then [] else [Missing(ref.cid, indices)];
    MissingIndicesAre(b, ref.cid, ref.chunks);
    if ref.cid == cid && index in indices {
      assert entry[0].cid == cid && index in entry[0].indices;
    }
  }

  lemma {:induction false} IsMissingAppend(b: Buffer, before: seq<ChunkRef>, last: ChunkRef, cid: JsString, index: nat)
    ensures IsMissing(b, before + [last], cid, index) <==>
              IsMissing(b, before, cid, index) || (last.cid == cid && index < last.chunks && !HasIndex(b, cid, index))
  {
    var refs := before + [last];
    assert refs[|before|] == last;
    if IsMissing(b, before, cid, index) {
      var i :| 0 <= i < |before| && before[i].cid == cid && index < before[i].chunks && !HasIndex(b, cid, index);
      assert refs[i] == before[i];
    }
  }

  /** A nack names every missing chunk of the references, and nothing else. */
  lemma {:induction false} MissingOfAre(b: Buffer, refs: seq<ChunkRef>, cid: JsString, index: nat)
    ensures AskedFor(MissingOf(b, refs), cid, index) <==> IsMissing(b, refs, cid, index)
  {
    if refs != [] {
      var before, last := refs[..|refs| - 1], refs[|refs| - 1];
      var indices := MissingIndices(b, last.cid, last.chunks);
      var entry := if indices == [] then [] else [Missing(last.cid, indices)];
      MissingOfAre(b, before, cid, index);
      AskedOfOne(b, last, cid, index);
      AskedForAppend(MissingOf(b, before), entry, cid, index);
      IsMissingAppend(b, before, last, cid, index);
      assert refs == before + [last];
    }
  }

  predicate Unambiguous(chunks: seq<Chunk>) {
    forall c, d :: c in chunks && d in chunks && c.cid == d.cid && c.index == d.index ==> c == d
  }

  lemma {:induction false} ResendIndicesAre(t: Tid, chunks: seq<Chunk>, cid: JsString, indices: seq<nat>, c: Chunk)
    requires Unambiguous(chunks) && c in chunks
    ensures ChunkPacket(t, c, true) in ResendIndices(t, chunks, cid, indices) <==> c.cid == cid && c.index in indices
  {
    if indices != [] {
      var before, last := indices[..|indices| - 1], indices[|indices| - 1];
      ResendIndicesAre(t, chunks, cid, before, c);
      assert indices == before + [last];
      var k := FindChunk(chunks, cid, last);
      assert k < |chunks| ==> chunks[k] in chunks;
    }
  }

  lemma {:induction false} ResendChunksAre(t: Tid, chunks: seq<Chunk>, wanted: seq<Missing>, c: Chunk)
    requires Unambiguous(chunks) && c in chunks
    ensures ChunkPacket(t, c, true) in ResendChunks(t, chunks, wanted) <==> AskedFor(wanted, c.cid, c.index)
  {
    if wanted != [] {
      var before, last := wanted[..|wanted| - 1], wanted[|wanted| - 1];
      ResendChunksAre(t, chunks, before, c);
      ResendIndicesAre(t, chunks, last.cid, last.indices, c);
      AskedForAppend(before, [last], c.cid, c.index);
      assert wanted == before + [last];
      assert AskedFor([last], c.cid, c.index) <==> last.cid == c.cid && c.index in last.indices by {
        assert [last][0] == last;
      }
    }
  }

  /** A chunk of the value is missing in the sense of the nack exactly when it has not been buffered. */
  lemma {:induction false} MissingIsNotHeld(s: Partial, u: Unit, c: Chunk)
    requires FromUnit(s, u) && ChunksMatch(u.packed.refs, u.packed.chunks) && c in u.packed.chunks
    ensures IsMissing(s.buffer, u.packed.refs, c.cid, c.index) <==> !HasChunk(s.buffer, c)
  {
    assert ChunkFits(u.packed.refs, c);
    if HasIndex(s.buffer, c.cid, c.index) {
      assert IsFiled(u.packed.chunks, c.cid, c.index, s.buffer[c.cid][c.index]);
    }
  }

  function Answer(t: Tid, u: Unit, nack: Packet): seq<Packet>
    requires nack.NackPacket?
  {
    Repair(t, u.packed, nack.wantManifest, nack.wanted, nack.wantComplete)
  }

  /** With the manifest held, the answer to a nack is exactly what the receiver lacks. */
  lemma {:induction false} NackBringsExactlyWhatIsMissing(t: Tid, s: Partial, u: Unit, p: Packet)
    requires FromUnit(s, u) && s.manifest.Some? && Genuine(u.packed, u.data)
    ensures p in Answer(t, u, BuildNack(t, s)) <==> p in Transmission(t, u.packed) && Lacks(s, p)
  {
    var nack, packed := BuildNack(t, s), u.packed;
    var resent := ResendChunks(t, packed.chunks, nack.wanted);
    TransmissionBelongs(t, packed);
    ResendChunksAreOwn(t, packed, nack.wanted);
    if p.ChunkPacket? && p.tid == t && p.intact && p.chunk in packed.chunks {
      ResendChunksAre(t, packed.chunks, nack.wanted, p.chunk);
      MissingOfAre(s.buffer, packed.refs, p.chunk.cid, p.chunk.index);
      MissingIsNotHeld(s, u, p.chunk);
    }
    if p in resent {
      var i :| 0 <= i < |resent| && resent[i] == p;
    }
  }

  // ---- rounds of repair ----------------------------------------------------------------------------

  /** The packets of one lossless round, all arriving now. */
  function FeedNow(r: Receiver, c: Config, now: int, packets: seq<Packet>): Receiver {
    if packets == [] then r
    else Receive(FeedNow(r, c, now, packets[..|packets| - 1]), c, now, packets[|packets| - 1]).0
  }

  function SeeAll(seen: set<Packet>, packets: seq<Packet>): set<Packet> {
    if packets == [] then seen else See(SeeAll(seen, packets[..|packets| - 1]), packets[|packets| - 1])
  }

  /** The transfer is delivered in the course of the round. */
  ghost predicate Completes(r: Receiver, c: Config, now: int, packets: seq<Packet>, d: Delivery) {
    exists k :: 0 <= k <= |packets| && FeedNow(r, c, now, packets[..k]).delivered == r.delivered + [d]
  }

  /** The transfer is still in progress, holding exactly `seen`. */
  ghost predicate Holding(r: Receiver, c: Config, now: int, t: Tid, sent: Sent, gaveUp: set<Tid>, seen: set<Packet>) {
    && Safe(r, c, now, sent, gaveUp) && AllGenuine(sent) && t in sent
    && InProgress(r, c, now, t)
    && Reflects(PartialOf(r, t, now), t, sent[t], seen)
  }

  lemma {:induction false} OneMorePacket(r: Receiver, c: Config, now: int, t: Tid, sent: Sent, gaveUp: set<Tid>, seen: set<Packet>, p: Packet)
    requires Holding(r, c, now, t, sent, gaveUp, seen) && IsPacketOf(p, t, sent[t])
    ensures var r' := Receive(r, c, now, p).0;
            if Covers(See(seen, p), t, sent[t]) then r'.delivered == r.delivered + [Delivery(t, sent[t].data, now)]
            else r'.delivered == r.delivered && t in r'.states.vals && Holding(r', c, now, t, sent, gaveUp, See(seen, p))
  {
    var (r', out) := Receive(r, c, now, p);
    assert Genuine(sent[t].packed, sent[t].data);
    PacketArrives(r, c, now, p, t, sent[t], seen);
    if !Covers(See(seen, p), t, sent[t]) {
      assert Safe(r', c, now, sent, gaveUp) by { ReceiveReplies(r, c, now, p, sent, gaveUp); }
      StillHolding(r, r', out, c, now, t, sent, gaveUp, See(seen, p));
    }
  }

  lemma {:induction false} StillHolding(r: Receiver, r': Receiver, out: seq<Packet>, c: Config, now: int, t: Tid, sent: Sent,
                                        gaveUp: set<Tid>, seen: set<Packet>)
    requires Safe(r', c, now, sent, gaveUp) && AllGenuine(sent) && t in sent
    requires !Covers(seen, t, sent[t]) && Progresses(r, r', out, now, t, sent[t], seen)
    ensures Holding(r', c, now, t, sent, gaveUp, seen)
  {
    ReflectsAnyTime(r'.states.vals[t], now, t, sent[t], seen);
  }

  lemma {:induction false} RoundProgresses(r: Receiver, c: Config, now: int, t: Tid, sent: Sent, gaveUp: set<Tid>,
                                          seen: set<Packet>, packets: seq<Packet>)
    requires Holding(r, c, now, t, sent, gaveUp, seen)
    requires forall i :: 0 <= i < |packets| ==> IsPacketOf(packets[i], t, sent[t])
    ensures var r' := FeedNow(r, c, now, packets);
            || Completes(r, c, now, packets, Delivery(t, sent[t].data, now))
            || (r'.delivered == r.delivered && Holding(r', c, now, t, sent, gaveUp, SeeAll(seen, packets))
                && (packets != [] ==> t in r'.states.vals && !Covers(SeeAll(seen, packets), t, sent[t])))
  {
    if packets != [] {
      var before, last := packets[..|packets| - 1], packets[|packets| - 1];
      var d := Delivery(t, sent[t].data, now);
      RoundProgresses(r, c, now, t, sent, gaveUp, seen, before);
      if Completes(r, c, now, before, d) {
        var k :| 0 <= k <= |before| && FeedNow(r, c, now, before[..k]).delivered == r.delivered + [d];
        assert packets[..k] == before[..k];
        assert Completes(r, c, now, packets, d);
      } else {
        OneMorePacket(FeedNow(r, c, now, before), c, now, t, sent, gaveUp, SeeAll(seen, before), last);
        if Covers(SeeAll(seen, packets), t, sent[t]) {
          assert packets[..|packets|] == packets;
          assert Completes(r, c, now, packets, d);
        }
      }
    }
  }

  lemma {:induction false} SeeAllIs(seen: set<Packet>, packets: seq<Packet>, p: Packet)
    requires forall i :: 0 <= i < |packets| ==> packets[i].ChunkPacket? ==> packets[i].intact
    ensures p in SeeAll(seen, packets) <==> p in seen || p in packets
  {
    if packets != [] {
      SeeAllIs(seen, packets[..|packets| - 1], p);
      assert packets == packets[..|packets| - 1] + [packets[|packets| - 1]];
    }
  }

  /** What the partial transfer holds already. */
  function Held(s: Partial, t: Tid, u: Unit): set<Packet> {
    set p | p in Transmission(t, u.packed) && !Lacks(s, p)
  }

  lemma {:induction false} HeldIsReflected(s: Partial, t: Tid, u: Unit)
    requires FromUnit(s, u)
    ensures Reflects(s, t, u, Held(s, t, u))
  {
    TransmissionBelongs(t, u.packed);
    forall i | 0 <= i < |u.packed.chunks| ensures ReflectsChunk(s, t, u.packed.chunks[i], Held(s, t, u)) {
      assert ChunkPacket(t, u.packed.chunks[i], true) in Transmission(t, u.packed);
    }
  }

  /** A nack that reached the sender while the send was pending, and its answer, without loss. */
  function RepairRound(r: Receiver, t: Tid, sender: Sender): seq<Packet>
    requires t in r.states.vals
  {
    HandleNack(sender, BuildNack(t, r.states.vals[t]))
  }

  lemma {:induction false} AnswersArePackets(t: Tid, s: Partial, u: Unit, i: nat)
    requires FromUnit(s, u) && Genuine(u.packed, u.data) && i < |Answer(t, u, BuildNack(t, s))|
    ensures IsPacketOf(Answer(t, u, BuildNack(t, s))[i], t, u)
    ensures Answer(t, u, BuildNack(t, s))[i].ChunkPacket? ==> Answer(t, u, BuildNack(t, s))[i].intact
  {
    TransmissionBelongs(t, u.packed);
    if s.manifest.Some? {
      NackBringsExactlyWhatIsMissing(t, s, u, Answer(t, u, BuildNack(t, s))[i]);
    } else {
      assert Answer(t, u, BuildNack(t, s)) == [ManifestPacket(t, ManifestOf(u.packed))];
    }
  }

  lemma {:induction false} AnswerIsRound(r: Receiver, t: Tid, sender: Sender, pc: Config, pnow: int)
    requires Orderly(sender, pc, pnow) && t in sender.pending.vals && t in r.states.vals
    ensures t in sender.sent && RepairRound(r, t, sender) == Answer(t, sender.sent[t], BuildNack(t, r.states.vals[t]))
  {
    assert Unfinished(sender, pc, t);
  }

  lemma {:induction false} ReflectsAnyTime(s: Partial, at: int, t: Tid, u: Unit, seen: set<Packet>)
    requires Reflects(s, t, u, seen)
    ensures Reflects(s.(updatedAt := at), t, u, seen)
  {
    forall i | 0 <= i < |u.packed.chunks| ensures ReflectsChunk(s.(updatedAt := at), t, u.packed.chunks[i], seen) {
      assert ReflectsChunk(s, t, u.packed.chunks[i], seen);
    }
  }

  lemma {:induction false} StartsHolding(r: Receiver, c: Config, now: int, t: Tid, sent: Sent, gaveUp: set<Tid>)
    requires Safe(r, c, now, sent, gaveUp) && AllGenuine(sent) && InProgress(r, c, now, t) && t in r.states.vals
    ensures t in sent && FromUnit(r.states.vals[t], sent[t]) && Genuine(sent[t].packed, sent[t].data)
    ensures Holding(r, c, now, t, sent, gaveUp, Held(r.states.vals[t], t, sent[t]))
  {
    HeldIsReflected(r.states.vals[t], t, sent[t]);
    ReflectsAnyTime(r.states.vals[t], now, t, sent[t], Held(r.states.vals[t], t, sent[t]));
  }

  lemma {:induction false} RepairCovers(s: Partial, t: Tid, u: Unit)
    requires FromUnit(s, u) && s.manifest.Some? && Genuine(u.packed, u.data)
    ensures Covers(SeeAll(Held(s, t, u), Answer(t, u, BuildNack(t, s))), t, u)
  {
    var all, out := Transmission(t, u.packed), Answer(t, u, BuildNack(t, s));
    forall i | 0 <= i < |out| && out[i].ChunkPacket? ensures out[i].intact {
      AnswersArePackets(t, s, u, i);
    }
    forall i | 0 <= i < |all| ensures all[i] in SeeAll(Held(s, t, u), out) {
      SeeAllIs(Held(s, t, u), out, all[i]);
      NackBringsExactlyWhatIsMissing(t, s, u, all[i]);
    }
  }

  /** With the manifest held and something missing, one lossless round delivers the transfer. */
  lemma {:induction false} OneRoundSuffices(r: Receiver, c: Config, now: int, t: Tid, sender: Sender, pc: Config, pnow: int)
    requires Safe(r, c, now, sender.sent, sender.gaveUp) && AllGenuine(sender.sent) && InProgress(r, c, now, t)
    requires Orderly(sender, pc, pnow) && t in sender.pending.vals
    requires t in r.states.vals && r.states.vals[t].manifest.Some?
    ensures t in sender.sent
    ensures !Whole(r.states.vals[t], sender.sent[t]) ==>
              Completes(r, c, now, RepairRound(r, t, sender), Delivery(t, sender.sent[t].data, now))
  {
    StartsHolding(r, c, now, t, sender.sent, sender.gaveUp);
    AnswerIsRound(r, t, sender, pc, pnow);
    var s, u, out := r.states.vals[t], sender.sent[t], RepairRound(r, t, sender);
    forall i | 0 <= i < |out| ensures IsPacketOf(out[i], t, u) {
      AnswersArePackets(t, s, u, i);
    }
    RoundProgresses(r, c, now, t, sender.sent, sender.gaveUp, Held(s, t, u), out);
    RepairCovers(s, t, u);
    HeldIsReflected(s, t, u);
    CoversMeansWhole(s, t, u, Held(s, t, u));
  }

  /** Nothing was delivered yet, but the next round delivers `d`. */
  ghost predicate CompletesNext(r: Receiver, r': Receiver, c: Config, now: int, t: Tid, sender: Sender, d: Delivery) {
    t in r'.states.vals && r'.delivered == r.delivered && Completes(r', c, now, RepairRound(r', t, sender), d)
  }

  /** Without the manifest, the first lossless round delivers the transfer or brings the manifest; then the second,
      if it comes before what was received expires, delivers it. */
  lemma {:induction false} TwoRoundsSuffice(r: Receiver, c: Config, now: int, t: Tid, sender: Sender, pc: Config, pnow: int, later: int)
    requires Safe(r, c, now, sender.sent, sender.gaveUp) && AllGenuine(sender.sent) && InProgress(r, c, now, t)
    requires Orderly(sender, pc, pnow) && t in sender.pending.vals
    requires t in r.states.vals && r.states.vals[t].manifest.None?
    requires now <= later && (c.partialTtlMs > 0 ==> later - now <= c.partialTtlMs)
    ensures t in sender.sent
    ensures var u, round := sender.sent[t], RepairRound(r, t, sender);
            || Completes(r, c, now, round, Delivery(t, u.data, now))
            || CompletesNext(r, FeedNow(r, c, now, round), c, later, t, sender, Delivery(t, u.data, later))
  {
    FirstRoundBringsManifest(r, t, sender, pc, pnow);
    assert Holding(r, c, now, t, sender.sent, sender.gaveUp, Held(r.states.vals[t], t, sender.sent[t])) by {
      StartsHolding(r, c, now, t, sender.sent, sender.gaveUp);
    }
    ManifestThenRest(r, c, now, t, sender, pc, pnow, later, Held(r.states.vals[t], t, sender.sent[t]));
  }

  lemma {:induction false} FirstRoundBringsManifest(r: Receiver, t: Tid, sender: Sender, pc: Config, pnow: int)
    requires Orderly(sender, pc, pnow) && t in sender.pending.vals
    requires t in r.states.vals && r.states.vals[t].manifest.None?
    ensures t in sender.sent && RepairRound(r, t, sender) == [ManifestPacket(t, ManifestOf(sender.sent[t].packed))]
  {
    AnswerIsRound(r, t, sender, pc, pnow);
  }

  lemma {:induction false} ManifestThenRest(r: Receiver, c: Config, now: int, t: Tid, sender: Sender, pc: Config, pnow: int, later: int, seen: set<Packet>)
    requires Holding(r, c, now, t, sender.sent, sender.gaveUp, seen)
    requires Orderly(sender, pc, pnow) && t in sender.pending.vals
    requires now <= later && (c.partialTtlMs > 0 ==> later - now <= c.partialTtlMs)
    ensures var u, round := sender.sent[t], [ManifestPacket(t, ManifestOf(sender.sent[t].packed))];
            || Completes(r, c, now, round, Delivery(t, u.data, now))
            || CompletesNext(r, FeedNow(r, c, now, round), c, later, t, sender, Delivery(t, u.data, later))
  {
    var manifest := ManifestPacket(t, ManifestOf(sender.sent[t].packed));
    ManifestArrives(r, c, now, t, sender.sent, sender.gaveUp, seen);
    if !Completes(r, c, now, [manifest], Delivery(t, sender.sent[t].data, now)) {
      SecondRound(r, FeedNow(r, c, now, [manifest]), c, now, t, sender, pc, pnow, later, See(seen, manifest));
    }
  }

  /** After a packet that did not complete the transfer, it is in progress, holding `seen`. */
  ghost predicate Leaves(r: Receiver, r': Receiver, c: Config, now: int, t: Tid, sent: Sent, gaveUp: set<Tid>, seen: set<Packet>) {
    && t in r'.states.vals && r'.states.vals[t].updatedAt == now && r'.delivered == r.delivered
    && Holding(r', c, now, t, sent, gaveUp, seen) && !Covers(seen, t, sent[t])
  }

  lemma {:induction false} ManifestArrives(r: Receiver, c: Config, now: int, t: Tid, sent: Sent, gaveUp: set<Tid>, seen: set<Packet>)
    requires Holding(r, c, now, t, sent, gaveUp, seen)
    ensures var p := ManifestPacket(t, ManifestOf(sent[t].packed));
            var r' := FeedNow(r, c, now, [p]);
            || Completes(r, c, now, [p], Delivery(t, sent[t].data, now))
            || Leaves(r, r', c, now, t, sent, gaveUp, See(seen, p))
  {
    var p := ManifestPacket(t, ManifestOf(sent[t].packed));
    var r' := Receive(r, c, now, p).0;
    assert [p][..0] == [] && [p][..1] == [p];
    assert FeedNow(r, c, now, [p]) == r';
    assert Genuine(sent[t].packed, sent[t].data);
    PacketArrives(r, c, now, p, t, sent[t], seen);
    OneMorePacket(r, c, now, t, sent, gaveUp, seen, p);
    if Covers(See(seen, p), t, sent[t]) {
      assert FeedNow(r, c, now, [p][..1]).delivered == r.delivered + [Delivery(t, sent[t].data, now)];
    }
  }

  lemma {:induction false} SecondRound(r: Receiver, r': Receiver, c: Config, now: int, t: Tid, sender: Sender, pc: Config, pnow: int, later: int,
                    seen: set<Packet>)
    requires Leaves(r, r', c, now, t, sender.sent, sender.gaveUp, seen)
    requires ManifestPacket(t, ManifestOf(sender.sent[t].packed)) in seen
    requires Orderly(sender, pc, pnow) && t in sender.pending.vals
    requires now <= later && (c.partialTtlMs > 0 ==> later - now <= c.partialTtlMs)
    ensures CompletesNext(r, r', c, later, t, sender, Delivery(t, sender.sent[t].data, later))
  {
    SafeGrows(r', c, now, sender.sent, sender.gaveUp, later, sender.sent, sender.gaveUp);
    CoversMeansWhole(PartialOf(r', t, now), t, sender.sent[t], seen);
    OneRoundSuffices(r', c, later, t, sender, pc, pnow);
  }
}