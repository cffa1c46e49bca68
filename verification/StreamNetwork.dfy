/** Stream events over a network: flushes are compacted on the wire, and packets may be put back in order. */
module StreamNetwork {
  import opened Outcomes
  import opened Text

  /** A chunk of a flush; `rest` stands for the fields that are carried along. */
  datatype Chunk = Chunk(data: Option<JsString>, chars: Option<int>, rest: string)

  datatype Event =
    | Flush(data: JsString, chunks: seq<Chunk>, rest: string)
    | Other(rest: string)

  datatype Packet = Packet(seqNo: nat, event: Event, fromFlushData: bool)

  /** An event as the buffer makes it: every chunk has its data. */
  predicate IsPublic(e: Event) { e.Flush? ==> forall i :: 0 <= i < |e.chunks| ==> e.chunks[i].data.Some? }

  function Clamp(i: int, n: nat): nat { if i < 0 then 0 else if i > n then n else i }

  /** `substring`: bounds are clamped, and swapped when they are the wrong way round. */
  function Substring(s: JsString, a: int, b: int): JsString {
    var i, j := Clamp(a, |s|), Clamp(b, |s|);
    if i <= j then s[i..j] else s[j..i]
  }

  /** What `substring` gives between bounds in order and in range, and that all other bounds come down to these. */
  lemma {:induction false} SubstringMeans(s: JsString, a: int, b: int)
    ensures 0 <= a <= b <= |s| ==> Substring(s, a, b) == s[a..b]
    ensures Substring(s, a, b) == Substring(s, b, a)
    ensures a < 0 ==> Substring(s, a, b) == Substring(s, 0, b)
    ensures a > |s| ==> Substring(s, a, b) == Substring(s, |s|, b)
  {
  }

  function CharsToCheck(c: Chunk): int
    requires c.data.Some?
  {
    if c.chars.Some? then c.chars.value else |c.data.value|
  }

  function CharsToRestore(c: Chunk): int { if c.chars.Some? then c.chars.value else 0 }

  /** The offset after the chunks, or None when one of them is not where its data says. */
  function Offset(data: JsString, chunks: seq<Chunk>): Option<int>
    requires forall i :: 0 <= i < |chunks| ==> chunks[i].data.Some?
  {
    if chunks == [] then Some(0)
    else
      var before, last := Offset(data, chunks[..|chunks| - 1]), chunks[|chunks| - 1];
      if before.None? || Substring(data, before.value, before.value + CharsToCheck(last)) != last.data.value then None
      else Some(before.value + CharsToCheck(last))
  }

  predicate CanCompact(e: Event)
    requires e.Flush? && IsPublic(e)
  {
    Offset(e.data, e.chunks) == Some(|e.data|)
  }

  function Stripped(chunks: seq<Chunk>): (r: seq<Chunk>)
    ensures |r| == |chunks|
  {
    seq(|chunks|, i requires 0 <= i < |chunks| => chunks[i].(data := None))
  }

  /** The wire form of an event. */
  function Compact(e: Event): (Event, bool)
    requires IsPublic(e)
  {
    if !e.Flush? || !CanCompact(e) then (e, false) else (e.(chunks := Stripped(e.chunks)), true)
  }

  function RestoreOffset(chunks: seq<Chunk>): int {
    if chunks == [] then 0 else RestoreOffset(chunks[..|chunks| - 1]) + CharsToRestore(chunks[|chunks| - 1])
  }

  function RestoreChunks(data: JsString, chunks: seq<Chunk>): (r: seq<Chunk>)
    ensures |r| == |chunks|
  {
    if chunks == [] then []
    else
      var before, last := chunks[..|chunks| - 1], chunks[|chunks| - 1];
      var at := RestoreOffset(before);
      RestoreChunks(data, before) + [last.(data := Some(Substring(data, at, at + CharsToRestore(last))))]
  }

  function Restore(e: Event, fromFlushData: bool): Event {
    if !e.Flush? || !fromFlushData then e else e.(chunks := RestoreChunks(e.data, e.chunks))
  }

  // ---- the loops ---------------------------------------------------------------------------------

  lemma {:induction false} OffsetOneMore(data: JsString, chunks: seq<Chunk>, k: nat, offset: int)
    requires forall i :: 0 <= i < |chunks| ==> chunks[i].data.Some?
    requires k < |chunks| && Offset(data, chunks[..k]) == Some(offset)
    ensures var chars := CharsToCheck(chunks[k]);
            Offset(data, chunks[..k + 1]) ==
              if Substring(data, offset, offset + chars) == chunks[k].data.value then Some(offset + chars) else None
  {
    assert chunks[..k + 1][..k] == chunks[..k];
  }

  method CanCompactFlushEvent(e: Event) returns (can: bool)
    requires e.Flush? && IsPublic(e)
    ensures can == CanCompact(e)
  {
    var offset := 0;
    for i := 0 to |e.chunks|
      invariant Offset(e.data, e.chunks[..i]) == Some(offset)
    {
      OffsetOneMore(e.data, e.chunks, i, offset);
      var chars := CharsToCheck(e.chunks[i]);
      if Substring(e.data, offset, offset + chars) != e.chunks[i].data.value {
        OffsetFails(e.data, e.chunks, i + 1);
        return false;
      }
      offset := offset + chars;
    }
    assert e.chunks[..|e.chunks|] == e.chunks;
    return offset == |e.data|;
  }

  lemma {:induction false} OffsetFails(data: JsString, chunks: seq<Chunk>, k: nat)
    requires forall i :: 0 <= i < |chunks| ==> chunks[i].data.Some?
    requires k <= |chunks| && Offset(data, chunks[..k]).None?
    ensures Offset(data, chunks).None?
    decreases |chunks| - k
  {
    if k < |chunks| {
      assert chunks[..k + 1][..k] == chunks[..k];
      OffsetFails(data, chunks, k + 1);
    } else {
      assert chunks[..k] == chunks;
    }
  }

  method RestoreStreamEvent(p: Packet) returns (e: Event)
    ensures e == Restore(p.event, p.fromFlushData)
  {
    if !p.event.Flush? || !p.fromFlushData {
      return p.event;
    }
    var data, chunks := p.event.data, p.event.chunks;
    var offset, restored: seq<Chunk> := 0, [];
    for i := 0 to |chunks|
      invariant offset == RestoreOffset(chunks[..i]) && restored == RestoreChunks(data, chunks[..i])
    {
      assert chunks[..i + 1][..i] == chunks[..i];
      var chars := CharsToRestore(chunks[i]);
      restored := restored + [chunks[i].(data := Some(Substring(data, offset, offset + chars)))];
      offset := offset + chars;
    }
    assert chunks[..|chunks|] == chunks;
    return p.event.(chunks := restored);
  }

  // ---- what is compacted ---------------------------------------------------------------------------

  /** What the chunks say, one after another. */
  function Joined(chunks: seq<Chunk>): JsString
    requires forall i :: 0 <= i < |chunks| ==> chunks[i].data.Some?
  {
    if chunks == [] then [] else Joined(chunks[..|chunks| - 1]) + chunks[|chunks| - 1].data.value
  }

  /** A length that is given is that of the data. */
  predicate IsHonest(c: Chunk) { c.data.Some? && (c.chars.Some? ==> c.chars.value == |c.data.value|) }

  lemma {:induction false} HonestOffset(data: JsString, chunks: seq<Chunk>)
    requires forall i :: 0 <= i < |chunks| ==> chunks[i].data.Some? && IsHonest(chunks[i])
    ensures Offset(data, chunks) == if Joined(chunks) <= data then Some(|Joined(chunks)|) else None
  {
    if chunks != [] {
      var before, last := chunks[..|chunks| - 1], chunks[|chunks| - 1];
      var at, n := |Joined(before)|, |last.data.value|;
      HonestOffset(data, before);
      assert IsHonest(last);
      if Joined(before) <= data {
        CutAt(data, at, n);
        assert Joined(before) + last.data.value <= data <==> data[at..at + Clamp(n, |data| - at)] == last.data.value;
      }
    }
  }

  lemma {:induction false} CutAt(data: JsString, at: nat, n: nat)
    requires at <= |data|
    ensures Substring(data, at, at + n) == data[at..at + Clamp(n, |data| - at)]
  {
  }

  /** A flush whose chunks carry no wrong lengths is compacted if and only if its data is theirs. Then the chunks go
      without their data, and all else stays. */
  lemma {:induction false} WhenHonestIsCompacted(e: Event)
    requires IsPublic(e) && (e.Flush? ==> forall i :: 0 <= i < |e.chunks| ==> IsHonest(e.chunks[i]))
    ensures Compact(e).1 <==> e.Flush? && e.data == Joined(e.chunks)
    ensures if Compact(e).1 then
              && Compact(e).0.Flush? && Compact(e).0 == e.(chunks := Compact(e).0.chunks) && |Compact(e).0.chunks| == |e.chunks|
              && forall i :: 0 <= i < |e.chunks| ==> Compact(e).0.chunks[i] == Chunk(None, e.chunks[i].chars, e.chunks[i].rest)
            else Compact(e).0 == e
  {
    if e.Flush? {
      HonestOffset(e.data, e.chunks);
      assert Joined(e.chunks) <= e.data && |Joined(e.chunks)| == |e.data| ==> e.data == Joined(e.chunks);
    }
  }

  // ---- the round trip ------------------------------------------------------------------------------

  /** A chunk whose length is known to the receiver: `chars` is given, or there is nothing to cut out. */
  predicate KnowsLength(c: Chunk) { c.chars.Some? || c.data == Some([]) }

  predicate AllKnowLength(chunks: seq<Chunk>) { forall i :: 0 <= i < |chunks| ==> KnowsLength(chunks[i]) }

  lemma {:induction false} StripLast(chunks: seq<Chunk>)
    requires chunks != []
    ensures var before, last := chunks[..|chunks| - 1], chunks[|chunks| - 1];
            Stripped(chunks)[..|chunks| - 1] == Stripped(before) && Stripped(chunks)[|chunks| - 1] == last.(data := None)
  {
  }

  /** Where the chunks know their lengths, the receiver cuts where the sender checked. */
  lemma {:induction false} OffsetsAgree(data: JsString, chunks: seq<Chunk>)
    requires forall i :: 0 <= i < |chunks| ==> chunks[i].data.Some?
    requires Offset(data, chunks).Some? && AllKnowLength(chunks)
    ensures Offset(data, chunks).value == RestoreOffset(Stripped(chunks))
  {
    if chunks != [] {
      OffsetsAgree(data, chunks[..|chunks| - 1]);
      StripLast(chunks);
      assert KnowsLength(chunks[|chunks| - 1]);
    }
  }

  lemma {:induction false} CutsAgree(data: JsString, chunks: seq<Chunk>)
    requires forall i :: 0 <= i < |chunks| ==> chunks[i].data.Some?
    requires Offset(data, chunks).Some? && AllKnowLength(chunks)
    ensures RestoreChunks(data, Stripped(chunks)) == chunks
  {
    if chunks != [] {
      CutsAgree(data, chunks[..|chunks| - 1]);
      LastCutAgrees(data, chunks);
      assert chunks == chunks[..|chunks| - 1] + [chunks[|chunks| - 1]];
    }
  }

  lemma {:induction false} LastCutAgrees(data: JsString, chunks: seq<Chunk>)
    requires chunks != [] && forall i :: 0 <= i < |chunks| ==> chunks[i].data.Some?
    requires Offset(data, chunks).Some? && AllKnowLength(chunks)
    ensures var before, last := chunks[..|chunks| - 1], chunks[|chunks| - 1];
            RestoreChunks(data, Stripped(chunks)) == RestoreChunks(data, Stripped(before)) + [last]
  {
    var before, last := chunks[..|chunks| - 1], chunks[|chunks| - 1];
    OffsetsAgree(data, before);
    StripLast(chunks);
    assert KnowsLength(last);
    LastIsRestored(data, last, RestoreOffset(Stripped(before)));
  }

  lemma {:induction false} LastIsRestored(data: JsString, last: Chunk, at: int)
    requires last.data.Some? && KnowsLength(last) && Substring(data, at, at + CharsToCheck(last)) == last.data.value
    ensures CharsToRestore(last.(data := None)) == CharsToCheck(last)
    ensures last.(data := Some(Substring(data, at, at + CharsToRestore(last.(data := None))))) == last
  {
  }

  lemma {:induction false} EmptyCut(s: JsString, at: int)
    ensures Substring(s, at, at + 0) == []
  {
    var i := Clamp(at, |s|);
    assert s[i..i] == [];
  }

  lemma {:induction false} UnknownLengthIsLost(data: JsString, chunks: seq<Chunk>, i: nat)
    requires i < |chunks| && chunks[i].chars.None?
    ensures RestoreChunks(data, chunks)[i].data == Some([])
  {
    var before := chunks[..|chunks| - 1];
    if i < |before| {
      UnknownLengthIsLost(data, before, i);
    } else {
      EmptyCut(data, RestoreOffset(before));
    }
  }

  /** Restoring undoes compacting exactly when the event is not compacted at all or every chunk knows its length. */
  lemma {:induction false} RestoreUndoesCompact(e: Event)
    requires IsPublic(e)
    ensures var (wire, compacted) := Compact(e);
            Restore(wire, compacted) == e <==> !compacted || AllKnowLength(e.chunks)
  {
    var (wire, compacted) := Compact(e);
    if compacted {
      if AllKnowLength(e.chunks) {
        CutsAgree(e.data, e.chunks);
      } else {
        var i :| 0 <= i < |e.chunks| && !KnowsLength(e.chunks[i]);
        UnknownLengthIsLost(e.data, Stripped(e.chunks), i);
        assert Restore(wire, compacted).chunks[i] != e.chunks[i];
      }
    }
  }

  /** In particular on every flush whose chunks carry `chars`, as those of the stream buffer do. */
  lemma {:induction false} BufferedFlushSurvives(e: Event)
    requires IsPublic(e) && (e.Flush? ==> forall i :: 0 <= i < |e.chunks| ==> e.chunks[i].chars.Some?)
    ensures var (wire, compacted) := Compact(e); Restore(wire, compacted) == e
  {
    RestoreUndoesCompact(e);
  }

  // ---- putting packets back in order ---------------------------------------------------------------

  function Wrap(e: Event, n: nat, compactFlush: bool): Packet
    requires IsPublic(e)
  {
    if compactFlush then Packet(n, Compact(e).0, Compact(e).1) else Packet(n, e, false)
  }

  predicate Survives(e: Event) { IsPublic(e) && (e.Flush? ==> AllKnowLength(e.chunks)) }

  /** The receiving end of one stream, for whatever the sending end has put into packets. */
  class StreamReceiver {
    const reorder: bool
    var nextSeq: nat
    var pending: map<nat, Packet>

    /** What was sent, which packets have arrived, and what was handed to the consumer. */
    ghost const sent: seq<Event>
    ghost const compactFlush: bool
    ghost var arrived: set<nat>
    ghost var delivered: seq<Event>

    /** A packet of this stream. */
    ghost predicate IsPacket(p: Packet)
      reads {}
    {
      p.seqNo < |sent| && IsPublic(sent[p.seqNo]) && p == Wrap(sent[p.seqNo], p.seqNo, compactFlush)
    }

    ghost predicate Filled(until: nat)
      reads this
    {
      forall i :: 0 <= i < until ==> i in arrived
    }

    /** Pending are exactly the packets that arrived and were not delivered, apart from late repetitions. */
    ghost predicate Tracks()
      reads this
    {
      && (forall i :: 0 <= i < |sent| ==> Survives(sent[i]))
      && nextSeq <= |sent| && delivered == sent[..nextSeq] && Filled(nextSeq)
      && (forall n :: n in pending ==> pending[n].seqNo == n && IsPacket(pending[n]))
      && (forall n :: n in arrived ==> n < |sent|)
      && (forall n :: n >= nextSeq ==> (n in pending <==> n in arrived))
    }

    /** All that can be delivered in order has been. */
    ghost predicate Valid()
      reads this
    {
      Tracks() && nextSeq !in arrived
    }

    constructor (reorder: bool, ghost sent: seq<Event>, ghost compactFlush: bool)
      requires forall i :: 0 <= i < |sent| ==> Survives(sent[i])
      ensures Valid() && this.reorder == reorder && this.sent == sent && this.compactFlush == compactFlush
      ensures delivered == [] && arrived == {}
    {
      this.reorder, this.sent, this.compactFlush := reorder, sent, compactFlush;
      nextSeq, pending, arrived, delivered := 0, map[], {}, [];
    }

    /** Restores a packet and hands its event to the consumer. */
    method Deliver(p: Packet)
      requires IsPacket(p) && Survives(sent[p.seqNo])
      modifies `delivered
      ensures delivered == old(delivered) + [sent[p.seqNo]]
    {
      var e := RestoreStreamEvent(p);
      RestoreUndoesCompact(sent[p.seqNo]);
      delivered := delivered + [e];
    }

    /** In reordering mode: whatever order packets arrive in, and however often, the delivered events are the longest
        prefix of the sent ones that has arrived, each once. */
    method Accept(p: Packet)
      requires Valid() && reorder && IsPacket(p)
      modifies this
      ensures Valid() && arrived == old(arrived) + {p.seqNo}
      ensures old(delivered) <= delivered <= sent
    {
      pending := pending[p.seqNo := p];
      arrived := arrived + {p.seqNo};
      while nextSeq in pending
        invariant Tracks() && arrived == old(arrived) + {p.seqNo} && old(delivered) <= delivered
        decreases |sent| - nextSeq
      {
        var ordered := pending[nextSeq];
        pending := pending - {nextSeq};
        nextSeq := nextSeq + 1;
        Deliver(ordered);
      }
    }

    /** Without reordering, every arrival is delivered as it comes. */
    method AcceptUnordered(p: Packet)
      requires IsPacket(p) && Survives(sent[p.seqNo])
      modifies `delivered
      ensures delivered == old(delivered) + [sent[p.seqNo]]
    {
      Deliver(p);
    }
  }
}
