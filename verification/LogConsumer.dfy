/** The receiving side of the log stream: a bounded, sorted store that is filled online, and exact loss counting. */
module LogConsumer {
  import opened LogTrace

  // ---- the specification of retention ------------------------------------------------------------

  /** An entry goes after everything that is at most it. */
  function Insert(sorted: seq<Entry>, e: Entry): seq<Entry> {
    if sorted == [] || !AtMost(sorted[0], e) then [e] + sorted else [sorted[0]] + Insert(sorted[1..], e)
  }

  /** All entries in (ts, seq) order; equal ones in order of arrival. */
  function Sort(entries: seq<Entry>): seq<Entry> {
    if entries == [] then [] else Insert(Sort(entries[..|entries| - 1]), entries[|entries| - 1])
  }

  /** The last `cap` ones. */
  function Last(entries: seq<Entry>, cap: int): seq<Entry> {
    if cap <= 0 then [] else if |entries| <= cap then entries else entries[|entries| - cap..]
  }

  lemma {:induction false} InsertIsSorted(sorted: seq<Entry>, e: Entry)
    requires Sorted(sorted)
    ensures Sorted(Insert(sorted, e)) && multiset(Insert(sorted, e)) == multiset(sorted) + multiset{e}
    ensures |Insert(sorted, e)| == |sorted| + 1
  {
    if sorted != [] && AtMost(sorted[0], e) {
      InsertIsSorted(sorted[1..], e);
      assert sorted == [sorted[0]] + sorted[1..];
      FrontIsLeast(sorted, e);
      SortedInFront(sorted[0], Insert(sorted[1..], e));
    } else if sorted != [] {
      assert forall i :: 0 <= i < |sorted| ==> AtMost(sorted[0], sorted[i]);
      SortedInFront(e, sorted);
    }
  }

  lemma {:induction false} SortedInFront(first: Entry, rest: seq<Entry>)
    requires Sorted(rest) && forall i :: 0 <= i < |rest| ==> AtMost(first, rest[i])
    ensures Sorted([first] + rest)
  {
  }

  /** What is put in front of the rest is at most everything in it. */
  lemma {:induction false} FrontIsLeast(sorted: seq<Entry>, e: Entry)
    requires sorted != [] && Sorted(sorted) && AtMost(sorted[0], e)
    requires multiset(Insert(sorted[1..], e)) == multiset(sorted[1..]) + multiset{e}
    ensures forall i :: 0 <= i < |Insert(sorted[1..], e)| ==> AtMost(sorted[0], Insert(sorted[1..], e)[i])
  {
    var rest := Insert(sorted[1..], e);
    forall i | 0 <= i < |rest| ensures AtMost(sorted[0], rest[i]) {
      assert rest[i] in multiset(rest);
      assert rest[i] in multiset(sorted[1..]) || rest[i] == e;
    }
  }

  lemma {:induction false} SortIsSorted(entries: seq<Entry>)
    ensures Sorted(Sort(entries)) && multiset(Sort(entries)) == multiset(entries)
  {
    if entries != [] {
      var before, last := entries[..|entries| - 1], entries[|entries| - 1];
      SortIsSorted(before);
      InsertIsSorted(Sort(before), last);
      assert entries == before + [last];
    }
  }

  /** Position `k` has everything at most `e` before it, and nothing at most `e` from it on. */
  lemma {:induction false} InsertAt(sorted: seq<Entry>, e: Entry, k: nat)
    requires k <= |sorted|
    requires forall i :: 0 <= i < k ==> AtMost(sorted[i], e)
    requires k < |sorted| ==> !AtMost(sorted[k], e)
    ensures Insert(sorted, e) == sorted[..k] + [e] + sorted[k..]
  {
    if k > 0 {
      InsertAt(sorted[1..], e, k - 1);
      assert sorted[..k] == [sorted[0]] + sorted[1..][..k - 1];
    }
  }

  /** Inserting first and cutting the front off is inserting into what is left, and dropping one. */
  lemma {:induction false} CutInsert(all: seq<Entry>, e: Entry, cut: nat)
    requires Sorted(all) && cut <= |all|
    ensures |Insert(all, e)| == |all| + 1 && |Insert(all[cut..], e)| == |all| - cut + 1
    ensures Insert(all, e)[cut + 1..] == Insert(all[cut..], e)[1..]
  {
    InsertIsSorted(all, e);
    InsertIsSorted(all[cut..], e);
    if cut == 0 {
      assert all[0..] == all;
    } else if AtMost(all[0], e) {
      CutInsert(all[1..], e, cut - 1);
      assert all[1..][cut - 1..] == all[cut..];
      assert Insert(all, e)[cut + 1..] == Insert(all[1..], e)[cut..];
    } else {
      assert Insert(all, e)[cut + 1..] == all[cut..];
      assert cut < |all| ==> AtMost(all[0], all[cut]);
      assert Insert(all[cut..], e) == [e] + all[cut..];
    }
  }

  /** Inserting into the retained tail and dropping the oldest is the same as inserting everywhere and cutting later. */
  lemma {:induction false} InsertThenCut(all: seq<Entry>, e: Entry, cap: int)
    requires Sorted(all)
    ensures Last(Insert(all, e), cap) == Last(Insert(Last(all, cap), e), cap)
  {
    if cap > 0 && |all| > cap {
      CutInsert(all, e, |all| - cap);
      SameLast(Insert(all, e), |all| - cap + 1, Insert(all[|all| - cap..], e), cap);
    }
  }

  lemma {:induction false} SameLast(a: seq<Entry>, n: nat, b: seq<Entry>, cap: int)
    requires 0 < cap && |a| == n + cap && |b| == 1 + cap && a[n..] == b[1..]
    ensures Last(a, cap) == Last(b, cap)
  {
  }

  // ---- what is accepted --------------------------------------------------------------------------

  datatype Arrival = Arrival(source: string, entry: Entry)

  /** Sequence numbers received from each source. */
  type Seen = map<string, set<nat>>

  predicate IsSeen(seen: Seen, source: string, n: nat) { source in seen && n in seen[source] }

  function Note(seen: Seen, source: string, n: nat): Seen {
    seen[source := (if source in seen then seen[source] else {}) + {n}]
  }

  datatype Log = Log(seen: Seen, accepted: seq<Entry>)

  /** One valid entry: a repeated one changes nothing; one below the minimum level only counts as received. */
  function Take(log: Log, minLevel: Level, a: Arrival): Log {
    if IsSeen(log.seen, a.source, a.entry.seqNo) then log
    else
      Log(Note(log.seen, a.source, a.entry.seqNo),
          if a.entry.level !in From(minLevel) then log.accepted else log.accepted + [a.entry.(source := a.source)])
  }

  /** What the receiver ignores: an entry without a positive sequence number. */
  predicate IsLogTraceEntry(e: Entry) { e.seqNo > 0 }

  function TakeAll(log: Log, minLevel: Level, arrivals: seq<Arrival>): Log {
    if arrivals == [] then log
    else
      var before, a := TakeAll(log, minLevel, arrivals[..|arrivals| - 1]), arrivals[|arrivals| - 1];
      if IsLogTraceEntry(a.entry) then Take(before, minLevel, a) else before
  }

  // ---- loss --------------------------------------------------------------------------------------

  datatype SourceState = SourceState(maxSeq: nat, seen: set<nat>)

  /** Received numbers are positive, and the greatest is known. */
  ghost predicate Tracks(s: SourceState) {
    && (forall n :: n in s.seen ==> 1 <= n <= s.maxSeq)
    && (s.maxSeq > 0 ==> s.maxSeq in s.seen)
  }

  /** The numbers from 1 to `n`. */
  function UpTo(n: nat): set<nat> { if n == 0 then {} else UpTo(n - 1) + {n} }

  lemma {:induction false} UpToFacts(n: nat)
    ensures |UpTo(n)| == n && forall k: nat :: k in UpTo(n) <==> 1 <= k <= n
  {
    if n > 0 {
      UpToFacts(n - 1);
    }
  }

  /** The numbers of a source that were never received, although a greater one was. */
  function Lost(s: SourceState): set<nat> { UpTo(s.maxSeq) - s.seen }

  lemma {:induction false} LossIsExact(s: SourceState)
    requires Tracks(s)
    ensures |Lost(s)| == s.maxSeq - |s.seen|
    ensures forall n: nat :: n in Lost(s) <==> 1 <= n <= s.maxSeq && n !in s.seen
  {
    UpToFacts(s.maxSeq);
    assert UpTo(s.maxSeq) == s.seen + Lost(s);
    assert s.seen !! Lost(s);
  }

  function Gaps(s: SourceState): nat { if s.maxSeq > |s.seen| then s.maxSeq - |s.seen| else 0 }

  /** The numbers lost by some of the sources. */
  function LostBy(sources: map<string, SourceState>, names: set<string>): set<(string, nat)> {
    set source, n | source in names && source in sources && n in Lost(sources[source]) :: (source, n)
  }

  /** All that was lost, source by source. */
  function AllLost(sources: map<string, SourceState>): set<(string, nat)> { LostBy(sources, sources.Keys) }

  /** The states of the sources record exactly what was received. */
  ghost predicate Accounts(sources: map<string, SourceState>, seen: Seen) {
    && (forall source :: source in sources ==> Tracks(sources[source]))
    && (forall source, n :: IsSeen(seen, source, n) <==> source in sources && n in sources[source].seen)
  }

  /** The state of a source after one more of its numbers. */
  function Counted(sources: map<string, SourceState>, source: string, n: nat): SourceState {
    var state := if source in sources then sources[source] else SourceState(0, {});
    SourceState(if n > state.maxSeq then n else state.maxSeq, state.seen + {n})
  }

  lemma {:induction false} CountingAccounts(sources: map<string, SourceState>, seen: Seen, source: string, n: nat)
    requires Accounts(sources, seen) && n > 0
    ensures Accounts(sources[source := Counted(sources, source, n)], Note(seen, source, n))
  {
    var sources', seen' := sources[source := Counted(sources, source, n)], Note(seen, source, n);
    forall other, k ensures IsSeen(seen', other, k) <==> other in sources' && k in sources'[other].seen {
      assert IsSeen(seen, other, k) <==> other in sources && k in sources[other].seen;
    }
  }

  function Tagged(source: string, numbers: set<nat>): set<(string, nat)> { set n | n in numbers :: (source, n) }

  lemma {:induction false} TaggedSize(source: string, numbers: set<nat>)
    ensures |Tagged(source, numbers)| == |numbers|
    decreases numbers
  {
    if numbers != {} {
      var n :| n in numbers;
      TaggedSize(source, numbers - {n});
      assert Tagged(source, numbers) == Tagged(source, numbers - {n}) + {(source, n)};
    }
  }

  lemma {:induction false} LostByOneMore(sources: map<string, SourceState>, names: set<string>, source: string)
    requires source in sources && source !in names
    ensures LostBy(sources, names + {source}) == LostBy(sources, names) + Tagged(source, Lost(sources[source]))
  {
  }

  lemma {:induction false} LostByOthers(sources: map<string, SourceState>, names: set<string>, source: string, numbers: set<nat>)
    requires source !in names
    ensures LostBy(sources, names) !! Tagged(source, numbers)
  {
  }

  lemma {:induction false} ApartSize<T>(a: set<T>, b: set<T>)
    requires a !! b
    ensures |a + b| == |a| + |b|
  {
  }

  lemma {:induction false} OneMoreSource(sources: map<string, SourceState>, names: set<string>, source: string)
    requires source in sources && source !in names && Tracks(sources[source])
    ensures |LostBy(sources, names + {source})| == |LostBy(sources, names)| + Gaps(sources[source])
  {
    var lost := Lost(sources[source]);
    LossIsExact(sources[source]);
    TaggedSize(source, lost);
    LostByOneMore(sources, names, source);
    LostByOthers(sources, names, source, lost);
    ApartSize(LostBy(sources, names), Tagged(source, lost));
  }

  // ---- the object --------------------------------------------------------------------------------

  class LogTraceConsumer {
    const minLevel: Level
    const maxEntries: int
    var entries: seq<Entry>
    var sources: map<string, SourceState>
    ghost var log: Log

    ghost predicate Valid()
      reads this
    {
      entries == Last(Sort(log.accepted), maxEntries) && Accounts(sources, log.seen)
    }

    constructor (minLevel: Level, maxEntries: int)
      ensures Valid() && log == Log(map[], []) && this.minLevel == minLevel && this.maxEntries == maxEntries
    {
      this.minLevel, this.maxEntries := minLevel, maxEntries;
      entries, sources, log := [], map[], Log(map[], []);
    }

    /** Finds the place by halving, inserts, and drops the oldest entry on overflow. */
    method Store(entry: Entry)
      requires Sorted(entries) && (|entries| <= maxEntries || entries == [])
      modifies `entries
      ensures entries == Last(Insert(old(entries), entry), maxEntries)
    {
      var lo, hi := 0, |entries|;
      while lo < hi
        invariant 0 <= lo <= hi <= |entries|
        invariant forall i :: 0 <= i < lo ==> AtMost(entries[i], entry)
        invariant forall i :: hi <= i < |entries| ==> !AtMost(entries[i], entry)
      {
        var mid := (lo + hi) / 2;
        if AtMost(entries[mid], entry) {
          lo := mid + 1;
        } else {
          hi := mid;
        }
      }
      InsertAt(entries, entry, lo);
      entries := entries[..lo] + [entry] + entries[lo..];
      if |entries| > maxEntries {
        entries := entries[1..];
      }
    }

    /** One received entry: ignored when malformed or repeated, counted as received, and kept if its level is high enough. */
    method ReceiveEntry(a: Arrival)
      requires Valid()
      modifies this
      ensures Valid() && log == TakeAll(old(log), minLevel, [a])
    {
      assert [a][..0] == [];
      if a.entry.seqNo <= 0 {
        return;
      }
      if a.source in sources && a.entry.seqNo in sources[a.source].seen {
        assert IsSeen(log.seen, a.source, a.entry.seqNo);
        return;
      }
      assert !IsSeen(log.seen, a.source, a.entry.seqNo);
      CountingAccounts(sources, log.seen, a.source, a.entry.seqNo);
      sources := sources[a.source := Counted(sources, a.source, a.entry.seqNo)];
      log := log.(seen := Note(log.seen, a.source, a.entry.seqNo));
      FromIsByWeight(a.entry.level, minLevel);
      if Weight(a.entry.level) >= Weight(minLevel) {
        Keep(a.entry.(source := a.source));
      }
    }

    /** Retains an entry that has been accepted. */
    method Keep(accepted: Entry)
      requires Valid()
      modifies `entries, `log
      ensures Valid() && log == old(log).(accepted := old(log).accepted + [accepted])
    {
      SortIsSorted(log.accepted);
      InsertThenCut(Sort(log.accepted), accepted, maxEntries);
      Store(accepted);
      log := log.(accepted := log.accepted + [accepted]);
      assert log.accepted[..|log.accepted| - 1] == old(log.accepted);
    }

    method Receive(source: string, batch: seq<Entry>)
      requires Valid()
      modifies this
      ensures Valid()
      ensures log == TakeAll(old(log), minLevel, seq(|batch|, i requires 0 <= i < |batch| => Arrival(source, batch[i])))
    {
      ghost var arrivals := seq(|batch|, i requires 0 <= i < |batch| => Arrival(source, batch[i]));
      for i := 0 to |batch|
        invariant Valid() && log == TakeAll(old(log), minLevel, arrivals[..i])
      {
        assert arrivals[..i + 1][..i] == arrivals[..i] && [arrivals[i]][..0] == [];
        ReceiveEntry(Arrival(source, batch[i]));
      }
      assert arrivals[..|batch|] == arrivals;
    }

    /** How many numbers were never received, of those below the greatest received from their source. */
    method GapCount() returns (gaps: nat)
      requires Valid()
      ensures gaps == |AllLost(sources)|
    {
      gaps := 0;
      var names, done: set<string> := sources.Keys, {};
      while names != {}
        invariant names + done == sources.Keys && names !! done
        invariant gaps == |LostBy(sources, done)|
      {
        var source :| source in names;
        OneMoreSource(sources, done, source);
        gaps := gaps + Gaps(sources[source]);
        names, done := names - {source}, done + {source};
      }
      assert done == sources.Keys;
    }

    method FilterLevel(min: Level) returns (listed: seq<Entry>)
      ensures listed == AtLeast(entries, min)
    {
      listed := [];
      for i := 0 to |entries|
        invariant listed == AtLeast(entries[..i], min)
      {
        assert entries[..i + 1][..i] == entries[..i];
        FromIsByWeight(entries[i].level, min);
        if Weight(entries[i].level) >= Weight(min) {
          listed := listed + [entries[i]];
        }
      }
      assert entries[..|entries|] == entries;
    }

    /** The retained entries from a level on, or the last `limit` of them. */
    method List(min: Level, limit: int) returns (listed: seq<Entry>)
      requires Valid()
      ensures listed == if limit < 0 then AtLeast(entries, min) else Last(AtLeast(entries, min), limit)
      ensures Sorted(listed)
    {
      listed := FilterLevel(min);
      SortIsSorted(log.accepted);
      LastIsSorted(Sort(log.accepted), maxEntries);
      AtLeastIsSorted(entries, min);
      LastIsSorted(listed, limit);
      if limit >= 0 && |listed| > limit {
        listed := listed[|listed| - limit..];
      }
    }

    /** Drops what is retained; what counts as received stays. */
    method Clear()
      requires Valid()
      modifies `entries, `log
      ensures Valid() && entries == [] && log == Log(old(log).seen, [])
    {
      entries := [];
      log := log.(accepted := []);
    }
  }

  lemma {:induction false} LastIsSorted(entries: seq<Entry>, cap: int)
    requires Sorted(entries)
    ensures Sorted(Last(entries, cap))
  {
  }

  function AtLeast(entries: seq<Entry>, min: Level): seq<Entry> {
    if entries == [] then []
    else
      var last := entries[|entries| - 1];
      AtLeast(entries[..|entries| - 1], min) + if last.level in From(min) then [last] else []
  }

  lemma {:induction false} AtLeastIsSorted(entries: seq<Entry>, min: Level)
    requires Sorted(entries)
    ensures Sorted(AtLeast(entries, min))
    ensures forall e :: e in AtLeast(entries, min) <==> e in entries && e.level in From(min)
  {
    if entries != [] {
      var before, last := entries[..|entries| - 1], entries[|entries| - 1];
      AtLeastIsSorted(before, min);
      assert entries == before + [last];
      var kept := AtLeast(before, min);
      forall i | 0 <= i < |kept| ensures AtMost(kept[i], last) {
        assert kept[i] in before;
      }
    }
  }
}