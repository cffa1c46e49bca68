/** The sending half of a reliable endpoint: attempts, acknowledgements, repair, failure, detachment. */
module Sending {
  import opened Outcomes
  import opened Json
  import opened Split
  import opened Ordered
  import opened Settlement
  import opened Packets

  datatype Pending = Pending(packed: Packed, attempts: nat, startedAt: int)

  /** How the promise of one `send` ended. */
  datatype Outcome = Outcome(tid: Tid, ok: bool)

  /** `sent`, `outcomes`, `gaveUp` and `tries` record history: what was sent, how each send ended, which ones
      failed, and how often each was transmitted in full. */
  datatype Sender = Sender(
    pending: JsMap<Tid, Pending>,
    settled: Memory,
    sent: Sent,
    outcomes: seq<Outcome>,
    gaveUp: set<Tid>,
    tries: map<Tid, nat>)

  // ---- operations ------------------------------------------------------------------------------

  /** The send is no longer pending; its promise has been resolved or rejected. */
  function EndSend(s: Sender, t: Tid, ok: bool): Sender {
    s.(pending := Delete(s.pending, t),
       outcomes := s.outcomes + [Outcome(t, ok)],
       gaveUp := if ok then s.gaveUp else s.gaveUp + {t})
  }

  /** Ends a pending send and remembers how it ended. */
  function Conclude(s: Sender, c: Config, now: int, t: Tid, ok: bool): Sender {
    EndSend(s, t, ok).(settled := Settle(s.settled, t, ok, now, c.limits))
  }

  function FailSend(s: Sender, c: Config, now: int, t: Tid): (Sender, seq<Packet>) {
    (Conclude(s, c, now, t, false), [ErrorPacket(t)])
  }

  predicate Overdue(p: Pending, c: Config, now: int) { now - p.startedAt >= c.deadlineMs }

  /** Sends everything once more. */
  function Transmit(s: Sender, t: Tid): Sender
    requires t in s.pending.vals
  {
    var p := s.pending.vals[t];
    s.(pending := Put(s.pending, t, p.(attempts := p.attempts + 1)),
       tries := s.tries[t := (if t in s.tries then s.tries[t] else 0) + 1])
  }

  function AttemptSend(s: Sender, c: Config, now: int, open: bool, t: Tid): (Sender, seq<Packet>)
    requires t in s.pending.vals
  {
    if Overdue(s.pending.vals[t], c, now) then FailSend(s, c, now, t)
    else if !open then (s, [])
    else
      var s' := Transmit(s, t);
      var out := Transmission(t, s.pending.vals[t].packed);
      if s'.pending.vals[t].attempts >= c.maxAttempts then
        (FailSend(s', c, now, t).0, out + FailSend(s', c, now, t).1)
      else (s', out)
  }

  function Register(s: Sender, now: int, t: Tid, u: Unit): Sender {
    s.(pending := Put(s.pending, t, Pending(u.packed, 0, now)), sent := s.sent[t := u], tries := s.tries[t := 0])
  }

  function Send(s: Sender, c: Config, now: int, open: bool, t: Tid, u: Unit): (Sender, seq<Packet>) {
    AttemptSend(Register(s, now, t, u), c, now, open, t)
  }

  function ResendTick(s: Sender, c: Config, now: int, open: bool, t: Tid): (Sender, seq<Packet>) {
    if t in s.pending.vals then AttemptSend(s, c, now, open, t) else (s, [])
  }

  function HandleAck(s: Sender, c: Config, now: int, t: Tid): Sender {
    if t in s.pending.vals then Conclude(s, c, now, t, true) else s
  }

  /** The first chunk with this id and index, or their number. */
  function FindChunk(chunks: seq<Chunk>, cid: Text.JsString, index: nat): (k: nat)
    ensures k <= |chunks|
    ensures k < |chunks| ==> chunks[k].cid == cid && chunks[k].index == index
    ensures forall j :: 0 <= j < k ==> chunks[j].cid != cid || chunks[j].index != index
  {
    if chunks == [] || (chunks[0].cid == cid && chunks[0].index == index) then 0
    else 1 + FindChunk(chunks[1..], cid, index)
  }

  function ResendIndices(t: Tid, chunks: seq<Chunk>, cid: Text.JsString, indices: seq<nat>): seq<Packet> {
    if indices == [] then []
    else
      var k := FindChunk(chunks, cid, indices[|indices| - 1]);
      ResendIndices(t, chunks, cid, indices[..|indices| - 1])
      + if k < |chunks| then [ChunkPacket(t, chunks[k], true)] else []
  }

  function ResendChunks(t: Tid, chunks: seq<Chunk>, wanted: seq<Missing>): seq<Packet> {
    if wanted == [] then []
    else
      var last := wanted[|wanted| - 1];
      ResendChunks(t, chunks, wanted[..|wanted| - 1]) + ResendIndices(t, chunks, last.cid, last.indices)
  }

  /** What a nack asks for. */
  function Repair(t: Tid, packed: Packed, wantManifest: bool, wanted: seq<Missing>, wantComplete: bool): seq<Packet> {
    (if wantManifest then [ManifestPacket(t, ManifestOf(packed))] else [])
    + ResendChunks(t, packed.chunks, wanted)
    + (if wantComplete then [CompletePacket(t)] else [])
  }

  function HandleNack(s: Sender, p: Packet): seq<Packet>
    requires p.NackPacket?
  {
    if p.tid in s.pending.vals then Repair(p.tid, s.pending.vals[p.tid].packed, p.wantManifest, p.wanted, p.wantComplete)
    else []
  }

  function ConcludeAll(s: Sender, c: Config, now: int, tids: seq<Tid>): Sender
    decreases tids
  {
    if tids == [] then s else ConcludeAll(Conclude(s, c, now, tids[0], false), c, now, tids[1..])
  }

  /** Detaching fails every pending send, without telling the other side. */
  function DetachSender(s: Sender, c: Config, now: int): Sender { ConcludeAll(s, c, now, s.pending.order) }

  function SweepSender(s: Sender, now: int): Sender { s.(settled := SweepTtl(s.settled, now)) }

  // ---- what every operation keeps --------------------------------------------------------------

  ghost predicate HasOutcome(outcomes: seq<Outcome>, t: Tid, ok: bool) {
    exists i :: 0 <= i < |outcomes| && outcomes[i] == Outcome(t, ok)
  }

  predicate Unfinished(s: Sender, c: Config, t: Tid)
    requires t in s.pending.vals
  {
    && t in s.sent && t in s.tries
    && s.pending.vals[t].packed == s.sent[t].packed
    && s.pending.vals[t].attempts == s.tries[t]
    && (s.tries[t] == 0 || s.tries[t] < c.maxAttempts)
  }

  /** Pending sends count their attempts; no send was tried more than `max(1, maxAttempts)` times. */
  ghost predicate Counted(s: Sender, c: Config) {
    && Valid(s.pending)
    && (forall t :: t in s.pending.vals ==> Unfinished(s, c, t))
    && s.tries.Keys == s.sent.Keys
    && (forall t :: t in s.tries ==> s.tries[t] <= 1 || s.tries[t] <= c.maxAttempts)
  }

  /** Each send is pending or has ended exactly once, never both. */
  ghost predicate EndedOnce(s: Sender) {
    && (forall t :: t in s.sent ==> t in s.pending.vals || HasOutcome(s.outcomes, t, true) || HasOutcome(s.outcomes, t, false))
    && (forall i :: 0 <= i < |s.outcomes| ==> s.outcomes[i].tid in s.sent && s.outcomes[i].tid !in s.pending.vals)
    && (forall i, j :: 0 <= i < j < |s.outcomes| ==> s.outcomes[i].tid != s.outcomes[j].tid)
    && (forall t :: t in s.gaveUp <==> HasOutcome(s.outcomes, t, false))
  }

  /** What is remembered as settled is how the send ended. */
  ghost predicate RemembersOutcomes(s: Sender, c: Config, now: int) {
    && Aged(s.settled, now, c.limits)
    && (forall t :: t in s.settled.vals ==> HasOutcome(s.outcomes, t, s.settled.vals[t].ok))
  }

  ghost predicate Orderly(s: Sender, c: Config, now: int) {
    Counted(s, c) && EndedOnce(s) && RemembersOutcomes(s, c, now)
  }

  lemma {:induction false} PendingIsNotSettled(s: Sender, c: Config, now: int, t: Tid)
    requires Orderly(s, c, now) && t in s.pending.vals
    ensures t !in s.settled.vals && t !in s.gaveUp && !HasOutcome(s.outcomes, t, true) && t in s.sent
  {
    assert Unfinished(s, c, t);
  }

  lemma {:induction false} OutcomeAppend(outcomes: seq<Outcome>, o: Outcome)
    ensures forall t, ok :: HasOutcome(outcomes + [o], t, ok) <==> HasOutcome(outcomes, t, ok) || o == Outcome(t, ok)
  {
    var more := outcomes + [o];
    forall t, ok | HasOutcome(outcomes, t, ok) || o == Outcome(t, ok) ensures HasOutcome(more, t, ok) {
      if HasOutcome(outcomes, t, ok) {
        var i :| 0 <= i < |outcomes| && outcomes[i] == Outcome(t, ok);
        assert more[i] == Outcome(t, ok);
      } else {
        assert more[|outcomes|] == Outcome(t, ok);
      }
    }
  }

  lemma {:induction false} ConcludeKeepsOrder(s: Sender, c: Config, now: int, t: Tid, ok: bool)
    requires Orderly(s, c, now) && t in s.pending.vals
    ensures Orderly(Conclude(s, c, now, t, ok), c, now)
  {
    PendingIsNotSettled(s, c, now, t);
    OutcomeAppend(s.outcomes, Outcome(t, ok));
    var s' := Conclude(s, c, now, t, ok);
    assert Counted(s', c) by {
      DeleteIsValid(s.pending, t);
    }
    assert RemembersOutcomes(s', c, now) by {
      SettleFacts(s.settled, t, ok, now, c.limits);
      SettleKeys(s.settled, t, ok, now, c.limits);
    }
    ConcludeEndsOnce(s, c, now, t, ok);
  }

  lemma {:induction false} ConcludeEndsOnce(s: Sender, c: Config, now: int, t: Tid, ok: bool)
    requires EndedOnce(s) && t in s.pending.vals && t in s.sent
    ensures EndedOnce(Conclude(s, c, now, t, ok))
  {
    OutcomeAppend(s.outcomes, Outcome(t, ok));
  }

  // ---- transmitting ------------------------------------------------------------------------------

  /** History only grows. */
  ghost predicate Follows(s: Sender, s': Sender) {
    && (forall t :: t in s.sent ==> t in s'.sent && s'.sent[t] == s.sent[t])
    && s.outcomes <= s'.outcomes
    && s.gaveUp <= s'.gaveUp
  }

  ghost predicate NothingResolved(s: Sender, s': Sender) {
    forall t :: HasOutcome(s'.outcomes, t, true) ==> HasOutcome(s.outcomes, t, true)
  }

  /** The sends `tids` failed; nothing was resolved, and the history goes on. */
  ghost predicate OnlyFailed(s: Sender, s': Sender, tids: seq<Tid>) {
    && Follows(s, s') && s'.sent == s.sent && NothingResolved(s, s')
    && (forall t :: t in s'.pending.vals <==> t in s.pending.vals && t !in tids)
  }

  lemma {:induction false} FailOne(s: Sender, c: Config, now: int, t: Tid)
    requires Orderly(s, c, now) && t in s.pending.vals
    ensures var s' := Conclude(s, c, now, t, false);
            Orderly(s', c, now) && OnlyFailed(s, s', [t])
  {
    var s' := Conclude(s, c, now, t, false);
    assert Orderly(s', c, now) by { ConcludeKeepsOrder(s, c, now, t, false); }
    assert NothingResolved(s, s') by { OutcomeAppend(s.outcomes, Outcome(t, false)); }
  }

  /** A sender puts only data of its own values on the wire, and errors only for sends that failed. */
  ghost predicate Speaks(s: Sender, out: seq<Packet>) {
    forall i :: 0 <= i < |out| ==> !out[i].AckPacket? && !out[i].NackPacket? && Honest(out[i], s.sent, s.gaveUp)
  }

  lemma {:induction false} TransmitKeepsOrder(s: Sender, c: Config, now: int, t: Tid)
    requires Orderly(s, c, now) && t in s.pending.vals && s.pending.vals[t].attempts + 1 < c.maxAttempts
    ensures Orderly(Transmit(s, t), c, now) && OnlyFailed(s, Transmit(s, t), [])
  {
    var s' := Transmit(s, t);
    assert Unfinished(s, c, t);
    PutIsValid(s.pending, t, s'.pending.vals[t]);
    forall u | u in s'.pending.vals ensures Unfinished(s', c, u) {
      assert Unfinished(s, c, u);
    }
  }

  /** The last allowed transmission, and the failure that follows it. */
  lemma {:induction false} LastTryKeepsOrder(s: Sender, c: Config, now: int, t: Tid)
    requires Orderly(s, c, now) && t in s.pending.vals
    ensures var s' := Conclude(Transmit(s, t), c, now, t, false);
            Orderly(s', c, now) && OnlyFailed(s, s', [t])
  {
    var tried := Transmit(s, t);
    var s' := Conclude(tried, c, now, t, false);
    PendingIsNotSettled(s, c, now, t);
    FailOne(s, c, now, t);
    LastTryIsCounted(s, c, now, t);
    assert EndedOnce(s') by { ConcludeEndsOnce(tried, c, now, t, false); }
    assert s'.outcomes == Conclude(s, c, now, t, false).outcomes;
    assert s'.settled == Conclude(s, c, now, t, false).settled;
  }

  lemma {:induction false} LastTryIsCounted(s: Sender, c: Config, now: int, t: Tid)
    requires Counted(s, c) && t in s.pending.vals
    ensures Counted(Conclude(Transmit(s, t), c, now, t, false), c)
  {
    var tried := Transmit(s, t);
    var s' := Conclude(tried, c, now, t, false);
    assert Unfinished(s, c, t);
    PutIsValid(s.pending, t, tried.pending.vals[t]);
    DeleteIsValid(tried.pending, t);
    forall u | u in s'.pending.vals ensures Unfinished(s', c, u) {
      assert Unfinished(s, c, u);
    }
  }

  /** What one attempt does: nothing while the network is closed, failure once the deadline has passed or the
      attempts are used up, else one full transmission; other sends are not touched. */
  lemma {:induction false} AttemptKeepsOrder(s: Sender, c: Config, now: int, open: bool, t: Tid)
    requires Orderly(s, c, now) && t in s.pending.vals
    ensures var (s', out) := AttemptSend(s, c, now, open, t);
            && Orderly(s', c, now) && Speaks(s', out)
            && (OnlyFailed(s, s', []) || OnlyFailed(s, s', [t]))
            && (Overdue(s.pending.vals[t], c, now) ==> OnlyFailed(s, s', [t]))
  {
    AttemptSpeaks(s, c, now, open, t);
    var p := s.pending.vals[t];
    if Overdue(p, c, now) {
      FailOne(s, c, now, t);
    } else if open {
      if p.attempts + 1 >= c.maxAttempts {
        LastTryKeepsOrder(s, c, now, t);
      } else {
        TransmitKeepsOrder(s, c, now, t);
      }
    }
  }

  /** `tries` counts full transmissions: an attempt that raises it, by one, puts every packet on an open network;
      one that does not puts no data there. */
  lemma {:induction false} TriesCountTransmissions(s: Sender, c: Config, now: int, open: bool, t: Tid)
    requires Orderly(s, c, now) && t in s.pending.vals
    ensures var (s', out) := AttemptSend(s, c, now, open, t);
            && (forall u :: u in s.tries && u != t ==> u in s'.tries && s'.tries[u] == s.tries[u])
            && t in s.tries && t in s'.tries && t in s.sent
            && ((s'.tries[t] == s.tries[t] + 1 && open && Transmission(t, s.sent[t].packed) <= out)
                || (s'.tries[t] == s.tries[t] && forall i :: 0 <= i < |out| ==> !IsData(out[i])))
  {
    assert Unfinished(s, c, t);
  }

  lemma {:induction false} AttemptSpeaks(s: Sender, c: Config, now: int, open: bool, t: Tid)
    requires Orderly(s, c, now) && t in s.pending.vals
    ensures Speaks(AttemptSend(s, c, now, open, t).0, AttemptSend(s, c, now, open, t).1)
  {
    var step := AttemptSend(s, c, now, open, t);
    PendingIsSent(s, c, t);
    if Overdue(s.pending.vals[t], c, now) {
      ErrorSpeaks(step.0, t);
    } else if open {
      TransmissionSpeaks(s, step.0, t, step.1);
    }
  }

  lemma {:induction false} ErrorSpeaks(s: Sender, t: Tid)
    requires t in s.sent && t in s.gaveUp
    ensures Speaks(s, [ErrorPacket(t)])
  {
  }

  lemma {:induction false} PendingIsSent(s: Sender, c: Config, t: Tid)
    requires Counted(s, c) && t in s.pending.vals
    ensures t in s.sent && s.pending.vals[t].packed == s.sent[t].packed
  {
    assert Unfinished(s, c, t);
  }

  lemma {:induction false} TransmissionSpeaks(s: Sender, s': Sender, t: Tid, out: seq<Packet>)
    requires t in s.sent && s'.sent == s.sent
    requires out == Transmission(t, s.sent[t].packed)
          || (out == Transmission(t, s.sent[t].packed) + [ErrorPacket(t)] && t in s'.gaveUp)
    ensures Speaks(s', out)
  {
    var packed := s.sent[t].packed;
    TransmissionBelongs(t, packed);
    forall i | 0 <= i < |out| ensures !out[i].AckPacket? && !out[i].NackPacket? && Honest(out[i], s'.sent, s'.gaveUp) {
      if i < |Transmission(t, packed)| {
        assert out[i] in Transmission(t, packed);
      }
    }
  }

  // ---- every operation -----------------------------------------------------------------------------

  lemma {:induction false} RegisterKeepsOrder(s: Sender, c: Config, now: int, t: Tid, u: Unit)
    requires Orderly(s, c, now) && t !in s.sent
    ensures Orderly(Register(s, now, t, u), c, now) && Follows(s, Register(s, now, t, u))
  {
    var s' := Register(s, now, t, u);
    PutIsValid(s.pending, t, Pending(u.packed, 0, now));
    forall x | x in s'.pending.vals ensures Unfinished(s', c, x) {
      assert x in s.pending.vals ==> Unfinished(s, c, x);
    }
  }

  lemma {:induction false} SendKeepsOrder(s: Sender, c: Config, now: int, open: bool, t: Tid, u: Unit)
    requires Orderly(s, c, now) && t !in s.sent
    ensures var (s', out) := Send(s, c, now, open, t, u);
            Orderly(s', c, now) && Follows(s, s') && Speaks(s', out) && s'.sent == s.sent[t := u] && NothingResolved(s, s')
  {
    RegisterKeepsOrder(s, c, now, t, u);
    AttemptKeepsOrder(Register(s, now, t, u), c, now, open, t);
  }

  lemma {:induction false} ResendTickKeepsOrder(s: Sender, c: Config, now: int, open: bool, t: Tid)
    requires Orderly(s, c, now)
    ensures var (s', out) := ResendTick(s, c, now, open, t);
            Orderly(s', c, now) && Follows(s, s') && Speaks(s', out) && s'.sent == s.sent && NothingResolved(s, s')
  {
    if t in s.pending.vals {
      AttemptKeepsOrder(s, c, now, open, t);
    }
  }

  /** No send outlives a resend tick at or after its deadline, whether the network is open or not. */
  lemma {:induction false} DeadlineEndsSend(s: Sender, c: Config, now: int, open: bool, t: Tid)
    requires Orderly(s, c, now) && t in s.pending.vals && now >= s.pending.vals[t].startedAt + c.deadlineMs
    ensures var s' := ResendTick(s, c, now, open, t).0;
            t !in s'.pending.vals && HasOutcome(s'.outcomes, t, false)
  {
    AttemptKeepsOrder(s, c, now, open, t);
    PendingIsNotSettled(s, c, now, t);
  }

  /** An acknowledgement resolves exactly the send it names, if that is still pending. */
  lemma {:induction false} AckKeepsOrder(s: Sender, c: Config, now: int, t: Tid)
    requires Orderly(s, c, now)
    ensures var s' := HandleAck(s, c, now, t);
            && Orderly(s', c, now) && Follows(s, s') && s'.sent == s.sent && s'.gaveUp == s.gaveUp
            && (forall o :: HasOutcome(s'.outcomes, o, true) <==>
                  HasOutcome(s.outcomes, o, true) || (o == t && t in s.pending.vals))
  {
    if t in s.pending.vals {
      ConcludeKeepsOrder(s, c, now, t, true);
      OutcomeAppend(s.outcomes, Outcome(t, true));
    }
  }

  /** The sends are pending, each named once. */
  ghost predicate ArePending(s: Sender, tids: seq<Tid>) {
    && (forall i :: 0 <= i < |tids| ==> tids[i] in s.pending.vals)
    && (forall i, j :: 0 <= i < j < |tids| ==> tids[i] != tids[j])
  }

  lemma {:induction false} RestIsPending(s: Sender, s1: Sender, tids: seq<Tid>)
    requires tids != [] && ArePending(s, tids) && OnlyFailed(s, s1, [tids[0]])
    ensures ArePending(s1, tids[1..])
  {
    forall i | 0 <= i < |tids[1..]| ensures tids[1..][i] in s1.pending.vals {
      assert tids[1..][i] == tids[i + 1];
    }
  }

  lemma {:induction false} ConcludeAllKeepsOrder(s: Sender, c: Config, now: int, tids: seq<Tid>)
    requires Orderly(s, c, now) && ArePending(s, tids)
    ensures var s' := ConcludeAll(s, c, now, tids);
            Orderly(s', c, now) && OnlyFailed(s, s', tids)
    decreases tids
  {
    if tids != [] {
      var s1 := Conclude(s, c, now, tids[0], false);
      FailOne(s, c, now, tids[0]);
      RestIsPending(s, s1, tids);
      ConcludeAllKeepsOrder(s1, c, now, tids[1..]);
      FailedInTurn(s, s1, ConcludeAll(s, c, now, tids), tids);
    }
  }

  lemma {:induction false} FailedInTurn(s: Sender, s1: Sender, s2: Sender, tids: seq<Tid>)
    requires tids != [] && OnlyFailed(s, s1, [tids[0]]) && OnlyFailed(s1, s2, tids[1..])
    ensures OnlyFailed(s, s2, tids)
  {
    assert tids == [tids[0]] + tids[1..];
  }

  /** Detaching ends every pending send, with a failure. */
  lemma {:induction false} DetachKeepsOrder(s: Sender, c: Config, now: int)
    requires Orderly(s, c, now)
    ensures var s' := DetachSender(s, c, now);
            && Orderly(s', c, now) && OnlyFailed(s, s', s.pending.order)
            && s'.pending.vals == map[]
            && (forall t :: t in s.pending.vals ==> HasOutcome(s'.outcomes, t, false))
  {
    var s' := DetachSender(s, c, now);
    OrderIsPending(s);
    ConcludeAllKeepsOrder(s, c, now, s.pending.order);
    assert s'.pending.vals == map[];
    forall t | t in s.pending.vals ensures HasOutcome(s'.outcomes, t, false) {
      PendingIsNotSettled(s, c, now, t);
    }
  }

  lemma {:induction false} OrderIsPending(s: Sender)
    requires Valid(s.pending)
    ensures ArePending(s, s.pending.order) && forall t :: t in s.pending.vals ==> t in s.pending.order
  {
  }

  lemma {:induction false} SweepKeepsOrder(s: Sender, c: Config, now: int)
    requires Orderly(s, c, now)
    ensures Orderly(SweepSender(s, now), c, now) && Follows(s, SweepSender(s, now))
  {
    SweepTtlFacts(s.settled, now);
    WithinKeepsAged(SweepTtl(s.settled, now), s.settled, now, c.limits);
  }

  lemma {:induction false} LaterKeepsOrder(s: Sender, c: Config, now: int, now': int)
    requires Orderly(s, c, now) && now <= now'
    ensures Orderly(s, c, now')
  {
  }

  // ---- repair ------------------------------------------------------------------------------------

  /** `packets` are intact chunks of this value. */
  predicate OwnChunks(t: Tid, packed: Packed, packets: seq<Packet>) {
    forall i :: 0 <= i < |packets| ==> packets[i].ChunkPacket? && packets[i].tid == t && BelongsTo(packets[i], packed)
  }

  lemma {:induction false} ResendIndicesAreOwn(t: Tid, packed: Packed, cid: Text.JsString, indices: seq<nat>)
    ensures OwnChunks(t, packed, ResendIndices(t, packed.chunks, cid, indices))
  {
    if indices != [] {
      ResendIndicesAreOwn(t, packed, cid, indices[..|indices| - 1]);
    }
  }

  lemma {:induction false} ResendChunksAreOwn(t: Tid, packed: Packed, wanted: seq<Missing>)
    ensures OwnChunks(t, packed, ResendChunks(t, packed.chunks, wanted))
  {
    if wanted != [] {
      ResendChunksAreOwn(t, packed, wanted[..|wanted| - 1]);
      ResendIndicesAreOwn(t, packed, wanted[|wanted| - 1].cid, wanted[|wanted| - 1].indices);
    }
  }

  lemma {:induction false} NackSpeaks(s: Sender, c: Config, now: int, p: Packet)
    requires Orderly(s, c, now) && p.NackPacket?
    ensures Speaks(s, HandleNack(s, p))
  {
    if p.tid in s.pending.vals {
      assert Unfinished(s, c, p.tid);
      ResendChunksAreOwn(p.tid, s.sent[p.tid].packed, p.wanted);
    }
  }
}
