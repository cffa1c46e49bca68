/** The sending side of the log stream: batches under a byte budget, in order and complete. */
module LogReporter {
  import opened Outcomes
  import opened Text
  import opened Json
  import opened LogTrace

  /** Size of the serialized entries, each with the comma or bracket after it. */
  function Total(entries: seq<Entry>): nat {
    if entries == [] then 0 else Total(entries[..|entries| - 1]) + SerializedBytes(entries[|entries| - 1]) + 1
  }

  /** Size of the serialized array: brackets around, commas between. */
  function ArrayBytes(entries: seq<Entry>): nat {
    if entries == [] then 2 else 1 + Total(entries)
  }

  function Flat(batches: seq<seq<Entry>>): seq<Entry> {
    if batches == [] then [] else Flat(batches[..|batches| - 1]) + batches[|batches| - 1]
  }

  lemma {:induction false} FlatAppend(batches: seq<seq<Entry>>, batch: seq<Entry>)
    ensures Flat(batches + [batch]) + [] == Flat(batches) + batch
  {
    assert (batches + [batch])[..|batches|] == batches;
  }

  lemma {:induction false} TotalAppend(entries: seq<Entry>, e: Entry)
    ensures Total(entries + [e]) == Total(entries) + SerializedBytes(e) + 1
  {
    assert (entries + [e])[..|entries|] == entries;
  }

  /** Entries carry the numbers from 1 on, without gaps. */
  predicate Numbered(entries: seq<Entry>) {
    entries == [] || (entries[|entries| - 1].seqNo == |entries| && Numbered(entries[..|entries| - 1]))
  }

  lemma {:induction false} NumberedAt(entries: seq<Entry>, i: nat)
    requires Numbered(entries) && i < |entries|
    ensures entries[i].seqNo == i + 1
  {
    if i < |entries| - 1 {
      NumberedAt(entries[..|entries| - 1], i);
    }
  }

  /** Sent or buffered is everything accepted, in order and numbered up to `n`. */
  ghost predicate InSequence(emitted: seq<seq<Entry>>, buffer: seq<Entry>, accepted: seq<Entry>, n: nat) {
    Flat(emitted) + buffer == accepted && Numbered(accepted) && |accepted| == n
  }

  /** Buffering one more entry, numbered next, appends it to everything accepted. */
  lemma {:induction false} AcceptedAppend(emitted: seq<seq<Entry>>, buffer: seq<Entry>, accepted: seq<Entry>, n: nat, e: Entry)
    requires InSequence(emitted, buffer, accepted, n) && e.seqNo == n + 1
    ensures InSequence(emitted, buffer + [e], accepted + [e], n + 1)
  {
    assert (accepted + [e])[..|accepted|] == accepted;
    assert Flat(emitted) + (buffer + [e]) == accepted + [e];
  }

  /** Sending the buffer moves it to the batches. */
  lemma {:induction false} SentAppend(emitted: seq<seq<Entry>>, buffer: seq<Entry>, accepted: seq<Entry>, n: nat)
    requires InSequence(emitted, buffer, accepted, n)
    ensures InSequence(emitted + [buffer], [], accepted, n)
  {
    FlatAppend(emitted, buffer);
  }

  /** Within the budget, or a single entry that could not be cut any further. */
  predicate FitsBudget(batch: seq<Entry>, budget: int) {
    ArrayBytes(batch) <= budget + 2 || (|batch| == 1 && batch[0].message == [])
  }

  /** The buffered entries fit into one batch, or are a single one that could not be cut any further. Their bytes are
      counted, save that the count of an entry that could not be cut may be stale: it is over the budget then. */
  predicate BufferFits(buffer: seq<Entry>, bytes: nat, budget: int) {
    && (bytes == Total(buffer) || (|buffer| == 1 && buffer[0].message == [] && bytes > budget))
    && (|buffer| >= 2 ==> bytes <= budget)
    && (|buffer| == 1 ==> SerializedBytes(buffer[0]) <= budget || buffer[0].message == [])
  }

  /** The size of an entry is known to be within the budget, or the entry could not be cut any further. */
  predicate IsCut(entry: Entry, bytes: nat, budget: int) {
    (bytes == SerializedBytes(entry) && bytes <= budget) || (bytes > budget && entry.message == [])
  }

  /** An entry with an empty message and no data may be over the budget, and `truncated` makes it longer still. */
  lemma {:induction false} NothingLeftToCut(level: Level, ts: int, seqNo: nat)
    ensures var entry := Entry(level, ts, [], None, seqNo, false, "");
            && SerializedBytes(entry) > |Ascii("{'level':,'ts':,'message':,'seq':}")|
            && SerializedBytes(entry.(truncated := true)) == SerializedBytes(entry) + |Ascii(",'truncated':true")|
            && |Ascii(",'truncated':true")| > 0
  {
  }

  lemma {:induction false} OneMoreBuffered(buffer: seq<Entry>, buffered: nat, e: Entry, bytes: nat, budget: int)
    requires BufferFits(buffer, buffered, budget) && IsCut(e, bytes, budget)
    requires (buffer == [] ==> buffered == 0) && (buffer != [] ==> buffered + bytes + 1 <= budget)
    ensures BufferFits(buffer + [e], buffered + bytes + 1, budget)
  {
    TotalAppend(buffer, e);
  }

  lemma {:induction false} BatchFits(buffer: seq<Entry>, buffered: nat, budget: int)
    requires BufferFits(buffer, buffered, budget) && buffer != []
    ensures FitsBudget(buffer, budget)
  {
    if |buffer| == 1 {
      assert buffer[..|buffer| - 1] == [];
      assert Total(buffer) == SerializedBytes(buffer[0]) + 1;
    }
  }

  predicate AllFit(batches: seq<seq<Entry>>, budget: int) {
    forall i :: 0 <= i < |batches| ==> batches[i] != [] && FitsBudget(batches[i], budget)
  }

  lemma {:induction false} OneMoreFits(batches: seq<seq<Entry>>, batch: seq<Entry>, budget: int)
    requires AllFit(batches, budget) && batch != [] && FitsBudget(batch, budget)
    ensures AllFit(batches + [batch], budget)
  {
  }

  lemma {:induction false} SentInOrder(emitted: seq<seq<Entry>>, buffer: seq<Entry>, bytes: nat, accepted: seq<Entry>, n: nat, budget: int)
    requires BufferFits(buffer, bytes, budget) && AllFit(emitted, budget) && InSequence(emitted, buffer, accepted, n) && buffer != []
    ensures AllFit(emitted + [buffer], budget) && InSequence(emitted + [buffer], [], accepted, n)
  {
    BatchFits(buffer, bytes, budget);
    OneMoreFits(emitted, buffer, budget);
    SentAppend(emitted, buffer, accepted, n);
  }

  /** What fitting an entry into the budget may do to it. */
  predicate IsCutFrom(cut: Entry, entry: Entry) {
    && cut.level == entry.level && cut.ts == entry.ts && cut.seqNo == entry.seqNo && cut.source == entry.source
    && cut.message <= entry.message
    && (cut.json == entry.json || cut.json.None?)
    && (cut != entry ==> cut.truncated)
  }

  /** The entry without its data, marked as truncated. */
  function Bare(e: Entry): Entry { e.(truncated := true, json := None) }

  /** No cut of the message can split a surrogate pair. */
  ghost predicate HasNoPairs(s: JsString) {
    forall k :: 0 <= k <= |s| ==> !Fuses(s[..k], s[k..])
  }

  lemma {:induction false} PrefixHasNoPairs(s: JsString, prefix: JsString)
    requires HasNoPairs(s) && prefix <= s
    ensures HasNoPairs(prefix)
  {
    forall k | 0 <= k <= |prefix| ensures !Fuses(prefix[..k], prefix[k..]) {
      assert !Fuses(s[..k], s[k..]);
      assert prefix[..k] == s[..k];
    }
  }

  /** No more units of the message are gone than bytes had to go, and each of them freed a byte. */
  predicate CutsNoMore(entry: Entry, cut: Entry, budget: int) {
    var gone := |entry.message| - |cut.message|;
    && gone + SerializedBytes(cut) <= SerializedBytes(Bare(entry))
    && (gone > 0 ==> gone <= SerializedBytes(Bare(entry)) - budget)
  }

  lemma {:induction false} CutsNoMoreStill(entry: Entry, cut: Entry, keep: nat, over: int, budget: int)
    requires HasNoPairs(entry.message) && cut.message <= entry.message && CutsNoMore(entry, cut, budget)
    requires |cut.message| - over <= keep <= |cut.message| && over <= SerializedBytes(cut) - budget
    ensures CutsNoMore(entry, cut.(message := cut.message[..keep]), budget)
  {
    PrefixHasNoPairs(entry.message, cut.message);
    CuttingFrees(cut.message, keep);
  }

  class LogTraceReporter {
    const minLevel: Level
    const flushCount: int
    const flushIntervalMs: int
    const maxBatchBytes: int
    var buffer: seq<Entry>
    var bufferBytes: nat
    var seqNo: nat
    var timer: bool
    var sentOnce: bool
    var closed: bool
    /** The batches handed to the sink, and everything accepted so far, in order. */
    ghost var emitted: seq<seq<Entry>>
    ghost var accepted: seq<Entry>

    /** Budget and numbering, whether or not the window of the buffer is open. */
    ghost predicate InOrder()
      reads this
    {
      && BufferFits(buffer, bufferBytes, maxBatchBytes) && AllFit(emitted, maxBatchBytes)
      && InSequence(emitted, buffer, accepted, seqNo)
      && (closed ==> buffer == []) && (sentOnce <==> emitted != [])
    }

    /** What is buffered will be sent: when a window is configured, it is open. */
    ghost predicate Valid()
      reads this
    {
      InOrder() && (buffer != [] && flushIntervalMs > 0 ==> timer)
    }

    constructor (minLevel: Level, flushCount: int, flushIntervalMs: int, maxBatchBytes: int)
      ensures Valid() && emitted == [] && buffer == [] && seqNo == 0 && !closed
      ensures this.minLevel == minLevel && this.maxBatchBytes == maxBatchBytes
      ensures this.flushCount == flushCount && this.flushIntervalMs == flushIntervalMs
    {
      this.minLevel, this.flushCount := minLevel, flushCount;
      this.flushIntervalMs, this.maxBatchBytes := flushIntervalMs, maxBatchBytes;
      buffer, bufferBytes, seqNo, timer, sentOnce, closed, emitted, accepted := [], 0, 0, false, false, false, [], [];
    }

    /** Fits an oversized entry into the budget: the structured data goes first, then the end of the message. */
    method Truncate(entry: Entry) returns (cut: Entry, bytes: nat)
      requires SerializedBytes(entry) > maxBatchBytes
      ensures IsCutFrom(cut, entry) && cut.truncated
      ensures IsCut(cut, bytes, maxBatchBytes)
      ensures cut.message != entry.message ==> cut.json.None?
      ensures bytes == SerializedBytes(cut) <==> entry.truncated || entry.json.Some? || entry.message != []
      ensures entry.json.Some? && SerializedBytes(Bare(entry)) <= maxBatchBytes ==> cut == Bare(entry)
      ensures HasNoPairs(entry.message) ==> CutsNoMore(entry, cut, maxBatchBytes)
    {
      cut, bytes := entry.(truncated := true), SerializedBytes(entry);
      if cut.json.Some? {
        cut := cut.(json := None);
        bytes := SerializedBytes(cut);
      }
      while bytes > maxBatchBytes && |cut.message| > 0
        invariant IsCutFrom(cut, entry) && cut.truncated && cut.json.None?
        invariant bytes == SerializedBytes(cut) || bytes > maxBatchBytes
        invariant bytes == SerializedBytes(cut) <==> entry.truncated || entry.json.Some? || cut.message != entry.message
        invariant entry.message == [] ==> cut.message == []
        invariant cut == Bare(entry).(message := cut.message)
        invariant bytes <= SerializedBytes(cut)
        invariant entry.json.Some? && SerializedBytes(Bare(entry)) <= maxBatchBytes ==> cut == Bare(entry)
        invariant HasNoPairs(entry.message) ==> CutsNoMore(entry, cut, maxBatchBytes)
        decreases |cut.message|
      {
        var over := bytes - maxBatchBytes;
        var keep := if |cut.message| > over then |cut.message| - over else 0;
        if HasNoPairs(entry.message) {
          CutsNoMoreStill(entry, cut, keep, over, maxBatchBytes);
        }
        cut := cut.(message := cut.message[..keep]);
        bytes := SerializedBytes(cut);
      }
    }

    /** Hands the buffered entries to the sink as one batch, if there are any, and closes the window; a sink that fails
        loses the batch. */
    method Flush()
      requires InOrder()
      modifies `emitted, `buffer, `bufferBytes, `sentOnce, `timer
      ensures Valid() && buffer == [] && !timer
      ensures emitted == if old(buffer) == [] then old(emitted) else old(emitted) + [old(buffer)]
      ensures sentOnce == (old(sentOnce) || old(buffer) != [])
    {
      timer := false;
      if |buffer| > 0 {
        ghost var sent := emitted + [buffer];
        SentInOrder(emitted, buffer, bufferBytes, accepted, seqNo, maxBatchBytes);
        emitted := sent;
        buffer, bufferBytes, sentOnce := [], 0, true;
        assert BufferFits(buffer, bufferBytes, maxBatchBytes);
        assert InSequence(sent, [], accepted, seqNo);
      }
    }

    /** The batch that holds the last accepted entry, sent or not, and the number of batches sent before it. */
    ghost function Newest(): seq<Entry>
      reads this
    {
      if buffer != [] || emitted == [] then buffer else emitted[|emitted| - 1]
    }

    ghost function SentBefore(): nat
      reads this
    {
      if buffer != [] || emitted == [] then |emitted| else |emitted| - 1
    }

    /** An error, a full batch and, where a window is configured, the very first batch are not kept waiting. */
    ghost predicate IsDue(level: Level)
      reads this
    {
      level.Error? || |Newest()| >= flushCount || (flushIntervalMs > 0 && SentBefore() == 0)
    }

    /** Adds an entry to a buffer that has room for it. */
    method Push(entry: Entry, bytes: nat)
      requires Valid() && !closed
      requires entry.seqNo == seqNo + 1
      requires IsCut(entry, bytes, maxBatchBytes)
      requires buffer != [] ==> bufferBytes + bytes + 1 <= maxBatchBytes
      modifies `buffer, `bufferBytes, `seqNo, `accepted
      ensures buffer == old(buffer) + [entry] && seqNo == old(seqNo) + 1
      ensures InOrder() && accepted == old(accepted) + [entry]
    {
      AcceptedAppend(emitted, buffer, accepted, seqNo, entry);
      OneMoreBuffered(buffer, bufferBytes, entry, bytes, maxBatchBytes);
      buffer := buffer + [entry];
      bufferBytes := bufferBytes + bytes + 1;
      seqNo := seqNo + 1;
      accepted := accepted + [entry];
    }

    /** Records one entry: below the minimum level, or after closing, it is ignored; else it is numbered, cut to the
        budget if need be, and kept or sent. */
    method Log(level: Level, ts: int, message: JsString, json: Option<JsString>)
      requires Valid()
      modifies this
      ensures Valid() && closed == old(closed)
      ensures old(closed) || level !in From(minLevel) ==> accepted == old(accepted) && emitted == old(emitted)
      ensures !(old(closed) || level !in From(minLevel)) ==>
                var entry := Entry(level, ts, message, json, old(seqNo) + 1, false, "");
                && |accepted| == |old(accepted)| + 1
                && accepted[..|old(accepted)|] == old(accepted)
                && IsCutFrom(accepted[|old(accepted)|], entry)
                && (SerializedBytes(entry) <= maxBatchBytes ==> accepted[|old(accepted)|] == entry)
                && (buffer == [] <==> IsDue(level))
      ensures old(emitted) <= emitted
    {
      FromIsByWeight(level, minLevel);
      if closed || Weight(level) < Weight(minLevel) {
        return;
      }
      var entry := Entry(level, ts, message, json, seqNo + 1, false, "");
      var bytes := SerializedBytes(entry);
      if bytes > maxBatchBytes {
        entry, bytes := Truncate(entry);
      }
      Keep(entry, bytes);
    }

    /** Sends what is buffered, if the next entry would exceed the budget. */
    method MakeRoom(bytes: nat)
      requires Valid() && !closed
      modifies this
      ensures Valid() && !closed && seqNo == old(seqNo) && accepted == old(accepted) && old(emitted) <= emitted
      ensures buffer != [] ==> bufferBytes + bytes + 1 <= maxBatchBytes
    {
      if |buffer| > 0 && bufferBytes + bytes + 1 > maxBatchBytes {
        Flush();
      }
    }

    /** Sends what is buffered, at once or when the window ends. */
    method FlushOrWait(level: Level)
      requires InOrder() && !closed && buffer != []
      modifies this
      ensures Valid() && !closed && accepted == old(accepted) && old(emitted) <= emitted
      ensures buffer == [] <==> IsDue(level)
    {
      if level.Error? || |buffer| >= flushCount || (flushIntervalMs > 0 && !sentOnce) {
        Flush();
        assert Newest() == old(buffer) && SentBefore() == |old(emitted)|;
      } else if flushIntervalMs > 0 && !timer {
        timer := true;
      }
    }

    method Keep(entry: Entry, bytes: nat)
      requires Valid() && !closed
      requires entry.seqNo == seqNo + 1
      requires IsCut(entry, bytes, maxBatchBytes)
      modifies this
      ensures Valid() && !closed && (buffer == [] <==> IsDue(entry.level))
      ensures accepted == old(accepted) + [entry] && old(emitted) <= emitted
    {
      MakeRoom(bytes);
      Push(entry, bytes);
      FlushOrWait(entry.level);
    }

    /** Flushes, and ignores everything from now on. */
    method Close()
      requires Valid()
      modifies this
      ensures Valid() && closed && buffer == [] && Flat(emitted) == old(accepted)
    {
      Flush();
      closed := true;
      assert Flat(emitted) + [] == Flat(emitted);
    }
  }
}
