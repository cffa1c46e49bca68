/** What the resend timer is for: a tick puts the whole transmission on an open network once more, while attempts are left. */
module Resending {
  import opened Outcomes
  import opened Json
  import opened Split
  import opened Ordered
  import opened Settlement
  import opened Packets
  import opened Receiving
  import opened Sending
  import opened Protocol
  import opened Transmitted

  /** Only the sending half and the wire differ. */
  ghost predicate OnlySends(e: Endpoint, e': Endpoint) { e' == e.(sender := e'.sender, wire := e'.wire) && e.wire <= e'.wire }

  /** Another transmission has been counted, and everything is on the wire. */
  ghost predicate HasResent(e: Endpoint, e': Endpoint, t: Tid) {
    && t in e.sender.sent && t in e.sender.tries && t in e'.sender.tries && e'.sender.tries[t] == e.sender.tries[t] + 1
    && AllOnWire(e'.wire, t, e.sender.sent[t].packed)
    && (forall p :: p in e'.wire ==> p in e.wire || p in Transmission(t, e.sender.sent[t].packed) || p == ErrorPacket(t))
  }

  /** The send goes on with the same deadline, or it has failed and the peer is told. */
  ghost predicate GoesOnOrFails(e: Endpoint, e': Endpoint, t: Tid, goesOn: bool) {
    if goesOn then
      && t in e.sender.pending.vals && t in e'.sender.pending.vals
      && e'.sender.pending.vals[t].startedAt == e.sender.pending.vals[t].startedAt
      && e'.sender.outcomes == e.sender.outcomes
    else
      && t !in e'.sender.pending.vals && ErrorPacket(t) in e'.wire
      && e'.sender.outcomes == e.sender.outcomes + [Outcome(t, false)]
  }

  /** The same for the sending half alone: what it says, and how it goes on. */
  ghost predicate SaysAll(s: Sender, s': Sender, out: seq<Packet>, t: Tid, goesOn: bool) {
    && t in s.sent && t in s.pending.vals && t in s.tries && t in s'.tries && s'.tries[t] == s.tries[t] + 1
    && out == Transmission(t, s.sent[t].packed) + (if goesOn then [] else [ErrorPacket(t)])
    && if goesOn then
         t in s'.pending.vals && s'.pending.vals[t].startedAt == s.pending.vals[t].startedAt && s'.outcomes == s.outcomes
       else t !in s'.pending.vals && s'.outcomes == s.outcomes + [Outcome(t, false)]
  }

  lemma {:induction false} AttemptSaysAll(s: Sender, c: Config, now: int, t: Tid)
    requires Counted(s, c) && t in s.pending.vals && now - s.pending.vals[t].startedAt < c.deadlineMs
    ensures var step := AttemptSend(s, c, now, true, t);
            t in s.tries && SaysAll(s, step.0, step.1, t, s.tries[t] + 1 < c.maxAttempts)
  {
    PendingIsSent(s, c, t);
    assert Unfinished(s, c, t);
    var all := Transmission(t, s.sent[t].packed);
    assert all + [] == all;
  }

  lemma {:induction false} SaidIsOnWire(e: Endpoint, s': Sender, out: seq<Packet>, t: Tid, goesOn: bool)
    requires SaysAll(e.sender, s', out, t, goesOn)
    ensures var e' := e.(sender := s', wire := Emit(e.wire, out));
            OnlySends(e, e') && HasResent(e, e', t) && GoesOnOrFails(e, e', t, goesOn)
  {
    var all := Transmission(t, e.sender.sent[t].packed);
    assert forall p :: p in all ==> p in out;
    assert forall p :: p in out ==> p in all || p == ErrorPacket(t);
    if !goesOn {
      assert out[|all|] == ErrorPacket(t);
    }
  }

  /** A resend tick before the deadline, on an open network: whatever is on the wire already, the whole transmission is put
      there again, and counted; the send fails if that was its last attempt, and else goes on. */
  lemma {:induction false} ResendTransmits(e: Endpoint, c: Config, t: Tid)
    requires Orderly(e.sender, c, e.now) && t in e.sender.pending.vals && e.open
    requires e.now - e.sender.pending.vals[t].startedAt < c.deadlineMs
    ensures var e' := Next(e, c, Resend(t));
            && OnlySends(e, e') && HasResent(e, e', t)
            && GoesOnOrFails(e, e', t, e.sender.tries[t] + 1 < c.maxAttempts)
  {
    var step := AttemptSend(e.sender, c, e.now, true, t);
    AttemptSaysAll(e.sender, c, e.now, t);
    SaidIsOnWire(e, step.0, step.1, t, e.sender.tries[t] + 1 < c.maxAttempts);
  }

  /** A tick that finds the network closed before the deadline, or the send ended, changes nothing. */
  lemma {:induction false} IdleResend(e: Endpoint, c: Config, t: Tid)
    requires t in e.sender.pending.vals ==> !e.open && e.now - e.sender.pending.vals[t].startedAt < c.deadlineMs
    ensures Next(e, c, Resend(t)) == e
  {
    EmitNothing(e.wire);
  }

  /** Sending is a first attempt: on an open network everything goes out at once, on a closed one it waits. */
  lemma {:induction false} SendTransmits(e: Endpoint, c: Config, t: Tid, data: Json, o: Options, ids: ChunkIds)
    requires SplitJson(data, o, ids).Success? && c.deadlineMs > 0
    ensures var packed := SplitJson(data, o, ids).value;
            var e' := Next(e, c, SendValue(t, data, o, ids));
            && OnlySends(e, e') && e'.sender.sent == e.sender.sent[t := Unit(data, packed)] && t in e'.sender.tries
            && (e.open ==> e'.sender.tries[t] == 1 && AllOnWire(e'.wire, t, packed))
            && (!e.open ==> e'.sender.tries[t] == 0 && e'.wire == e.wire)
            && (!e.open || c.maxAttempts > 1 ==>
                  t in e'.sender.pending.vals && e'.sender.pending.vals[t].startedAt == e.now && e'.sender.outcomes == e.sender.outcomes)
            && (e.open && c.maxAttempts <= 1 ==>
                  t !in e'.sender.pending.vals && e'.sender.outcomes == e.sender.outcomes + [Outcome(t, false)])
  {
    EmitNothing(e.wire);
    var u := Unit(data, SplitJson(data, o, ids).value);
    var step := Send(e.sender, c, e.now, e.open, t, u);
    if e.open {
      assert forall p :: p in Transmission(t, u.packed) ==> p in step.1;
    }
  }
}
