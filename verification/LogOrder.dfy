/** The order and repetition of arrivals do not matter: the list shows the same keys, and the same loss is counted. */
module LogOrder {
  import opened LogTrace
  import opened LogConsumer

  const NOTHING := Log(map[], [])

  /** A source and a number fix the entry. */
  ghost predicate Fixed(arrivals: seq<Arrival>) {
    forall i, j :: 0 <= i < |arrivals| && 0 <= j < |arrivals| ==> (
      arrivals[i].source == arrivals[j].source && arrivals[i].entry.seqNo == arrivals[j].entry.seqNo ==> arrivals[i] == arrivals[j])
  }

  ghost predicate Heard(arrivals: seq<Arrival>, source: string, n: nat) {
    exists i :: 0 <= i < |arrivals| && arrivals[i].source == source && arrivals[i].entry.seqNo == n && n > 0
  }

  function Stored(a: Arrival): Entry { a.entry.(source := a.source) }

  ghost predicate Wanted(arrivals: seq<Arrival>, minLevel: Level, e: Entry) {
    exists i :: 0 <= i < |arrivals| && IsWanted(arrivals[i], minLevel, e)
  }

  predicate IsWanted(a: Arrival, minLevel: Level, e: Entry) {
    a.entry.seqNo > 0 && a.entry.level in From(minLevel) && e == Stored(a)
  }

  lemma {:induction false} HeardAppend(before: seq<Arrival>, a: Arrival, source: string, n: nat)
    ensures Heard(before + [a], source, n) <==> Heard(before, source, n) || (a.source == source && a.entry.seqNo == n && n > 0)
  {
    var all := before + [a];
    assert all[|before|] == a;
    if Heard(before, source, n) {
      var i :| 0 <= i < |before| && before[i].source == source && before[i].entry.seqNo == n && n > 0;
      assert all[i] == before[i];
    }
  }

  lemma {:induction false} WantedAppend(before: seq<Arrival>, a: Arrival, minLevel: Level, e: Entry)
    ensures Wanted(before + [a], minLevel, e) <==> Wanted(before, minLevel, e) || IsWanted(a, minLevel, e)
  {
    var all := before + [a];
    assert all[|before|] == a;
    if Wanted(before, minLevel, e) {
      var i :| 0 <= i < |before| && IsWanted(before[i], minLevel, e);
      assert all[i] == before[i];
    }
  }

  /** What is accepted: every wanted entry once. */
  ghost predicate AcceptsEachOnce(log: Log, arrivals: seq<Arrival>, minLevel: Level) {
    && (forall source, n :: IsSeen(log.seen, source, n) <==> Heard(arrivals, source, n))
    && (forall e :: e in log.accepted <==> Wanted(arrivals, minLevel, e))
    && (forall i, j :: 0 <= i < j < |log.accepted| ==> log.accepted[i] != log.accepted[j])
  }

  lemma {:induction false} TakeAllAcceptsEachOnce(arrivals: seq<Arrival>, minLevel: Level)
    requires Fixed(arrivals)
    ensures AcceptsEachOnce(TakeAll(NOTHING, minLevel, arrivals), arrivals, minLevel)
  {
    if arrivals != [] {
      var before, a := arrivals[..|arrivals| - 1], arrivals[|arrivals| - 1];
      assert arrivals == before + [a];
      TakeAllAcceptsEachOnce(before, minLevel);
      OneMoreArrival(TakeAll(NOTHING, minLevel, before), before, a, minLevel);
    }
  }

  lemma {:induction false} OneMoreArrival(log: Log, before: seq<Arrival>, a: Arrival, minLevel: Level)
    requires Fixed(before + [a]) && AcceptsEachOnce(log, before, minLevel)
    ensures AcceptsEachOnce(if IsLogTraceEntry(a.entry) then Take(log, minLevel, a) else log, before + [a], minLevel)
  {
    var log' := if IsLogTraceEntry(a.entry) then Take(log, minLevel, a) else log;
    forall source, n ensures IsSeen(log'.seen, source, n) <==> Heard(before + [a], source, n) {
      HeardAppend(before, a, source, n);
      assert IsSeen(log.seen, source, n) <==> Heard(before, source, n);
    }
    forall e ensures e in log'.accepted <==> Wanted(before + [a], minLevel, e) {
      WantedAppend(before, a, minLevel, e);
      if IsWanted(a, minLevel, e) && IsSeen(log.seen, a.source, a.entry.seqNo) {
        RepeatIsTheSame(before, a);
        assert Wanted(before, minLevel, e);
      }
    }
    if Stored(a) in log.accepted {
      WantedWasHeard(before, a, minLevel);
      assert IsSeen(log.seen, a.source, a.entry.seqNo);
    }
  }

  lemma {:induction false} RepeatIsTheSame(before: seq<Arrival>, a: Arrival)
    requires Fixed(before + [a]) && Heard(before, a.source, a.entry.seqNo)
    ensures a in before
  {
    var all := before + [a];
    var i :| 0 <= i < |before| && before[i].source == a.source && before[i].entry.seqNo == a.entry.seqNo;
    assert all[i] == before[i] && all[|before|] == a;
  }

  lemma {:induction false} WantedWasHeard(before: seq<Arrival>, a: Arrival, minLevel: Level)
    requires Wanted(before, minLevel, Stored(a))
    ensures Heard(before, a.source, a.entry.seqNo)
  {
    var i :| 0 <= i < |before| && IsWanted(before[i], minLevel, Stored(a));
    assert before[i].source == Stored(before[i]).source;
  }

  // ---- keys --------------------------------------------------------------------------------------

  type Key = (int, nat)

  function KeyOf(e: Entry): Key { (e.ts, e.seqNo) }

  function Keys(entries: seq<Entry>): (keys: seq<Key>)
    ensures |keys| == |entries| && forall i :: 0 <= i < |entries| ==> keys[i] == KeyOf(entries[i])
  {
    seq(|entries|, i requires 0 <= i < |entries| => KeyOf(entries[i]))
  }

  /** The first of a sorted sequence is at most everything in it. */
  lemma {:induction false} FirstIsLeast(a: seq<Key>, k: Key)
    requires KeysSorted(a) && k in multiset(a)
    ensures a != [] && KeyAtMost(a[0], k)
  {
    var i :| 0 <= i < |a| && a[i] == k;
  }

  lemma {:induction false} RestOfSame(a: seq<Key>, b: seq<Key>)
    requires a != [] && b != [] && a[0] == b[0] && multiset(a) == multiset(b)
    ensures multiset(a[1..]) == multiset(b[1..])
  {
    assert a == [a[0]] + a[1..] && b == [b[0]] + b[1..];
    assert multiset(a[1..]) == multiset(a) - multiset{a[0]};
    assert multiset(b[1..]) == multiset(b) - multiset{a[0]};
  }

  lemma {:induction false} SortedTail(a: seq<Key>)
    requires KeysSorted(a) && a != []
    ensures KeysSorted(a[1..])
  {
  }

  /** Two sorted sequences of the same keys are the same. */
  lemma {:induction false} SortedKeysAgree(a: seq<Key>, b: seq<Key>)
    requires multiset(a) == multiset(b) && KeysSorted(a) && KeysSorted(b)
    ensures a == b
  {
    if a == [] {
      assert b == [] by { assert |multiset(b)| == 0; }
    } else {
      assert a[0] in multiset(a);
      FirstIsLeast(b, a[0]);
      assert b[0] in multiset(b);
      FirstIsLeast(a, b[0]);
      RestOfSame(a, b);
      SortedTail(a);
      SortedTail(b);
      SortedKeysAgree(a[1..], b[1..]);
      assert a == [a[0]] + a[1..] && b == [b[0]] + b[1..];
    }
  }

  predicate KeyAtMost(a: Key, b: Key) { a.0 < b.0 || (a.0 == b.0 && a.1 <= b.1) }

  ghost predicate KeysSorted(keys: seq<Key>) {
    forall i, j :: 0 <= i <= j < |keys| ==> KeyAtMost(keys[i], keys[j])
  }

  lemma {:induction false} KeysOfSorted(entries: seq<Entry>)
    requires Sorted(entries)
    ensures KeysSorted(Keys(entries))
  {
  }

  lemma {:induction false} TakenOut<T>(s: seq<T>, j: nat)
    requires j < |s|
    ensures multiset(s) == multiset(s[..j] + s[j + 1..]) + multiset{s[j]}
  {
    assert s == s[..j] + [s[j]] + s[j + 1..];
  }

  lemma {:induction false} KeysOfTakenOut(s: seq<Entry>, j: nat)
    requires j < |s|
    ensures multiset(Keys(s)) == multiset(Keys(s[..j] + s[j + 1..])) + multiset{KeyOf(s[j])}
  {
    TakenOut(Keys(s), j);
    assert Keys(s[..j] + s[j + 1..]) == Keys(s)[..j] + Keys(s)[j + 1..];
  }

  lemma {:induction false} SameRest(a: seq<Entry>, i: nat, b: seq<Entry>, j: nat)
    requires i < |a| && j < |b| && a[i] == b[j] && multiset(a) == multiset(b)
    ensures multiset(a[..i] + a[i + 1..]) == multiset(b[..j] + b[j + 1..])
  {
    TakenOut(a, i);
    TakenOut(b, j);
    assert multiset(a[..i] + a[i + 1..]) == multiset(a) - multiset{a[i]};
    assert multiset(b[..j] + b[j + 1..]) == multiset(b) - multiset{a[i]};
  }

  lemma {:induction false} SameEntriesSameKeys(a: seq<Entry>, b: seq<Entry>)
    requires multiset(a) == multiset(b)
    ensures multiset(Keys(a)) == multiset(Keys(b))
    decreases |a|
  {
    if a == [] {
      assert |multiset(b)| == 0;
      assert Keys(a) == Keys(b);
    } else {
      assert a[0] in multiset(b);
      var j :| 0 <= j < |b| && b[j] == a[0];
      var restA, restB := a[..0] + a[1..], b[..j] + b[j + 1..];
      assert multiset(restA) == multiset(restB) by { SameRest(a, 0, b, j); }
      SameEntriesSameKeys(restA, restB);
      assert multiset(Keys(a)) == multiset(Keys(restA)) + multiset{KeyOf(a[0])} by { KeysOfTakenOut(a, 0); }
      assert multiset(Keys(b)) == multiset(Keys(restB)) + multiset{KeyOf(a[0])} by { KeysOfTakenOut(b, j); }
    }
  }

  /** No repetitions and the same members: the same multiset. */
  lemma {:induction false} SameMembersSameCounts(a: seq<Entry>, b: seq<Entry>)
    requires forall i, j :: 0 <= i < j < |a| ==> a[i] != a[j]
    requires forall i, j :: 0 <= i < j < |b| ==> b[i] != b[j]
    requires forall e :: e in a <==> e in b
    ensures multiset(a) == multiset(b)
  {
    forall e ensures multiset(a)[e] == multiset(b)[e] {
      CountsOnce(a, e);
      CountsOnce(b, e);
    }
  }

  lemma {:induction false} CountsOnce(s: seq<Entry>, e: Entry)
    requires forall i, j :: 0 <= i < j < |s| ==> s[i] != s[j]
    ensures multiset(s)[e] == if e in s then 1 else 0
  {
    if s != [] {
      CountsOnce(s[1..], e);
      assert s == [s[0]] + s[1..];
      assert s[0] !in s[1..];
    }
  }

  /** Whatever the order of arrival, and however often entries are repeated: the list shows the same keys, and the
      same numbers count as received. */
  lemma {:induction false} ArrivalOrderDoesNotMatter(a: seq<Arrival>, b: seq<Arrival>, minLevel: Level, cap: int)
    requires Fixed(a) && Fixed(b) && forall x :: x in a <==> x in b
    ensures var la, lb := TakeAll(NOTHING, minLevel, a), TakeAll(NOTHING, minLevel, b);
            && Keys(Last(Sort(la.accepted), cap)) == Keys(Last(Sort(lb.accepted), cap))
            && forall source, n :: IsSeen(la.seen, source, n) <==> IsSeen(lb.seen, source, n)
  {
    var la, lb := TakeAll(NOTHING, minLevel, a), TakeAll(NOTHING, minLevel, b);
    TakeAllAcceptsEachOnce(a, minLevel);
    TakeAllAcceptsEachOnce(b, minLevel);
    forall source, n ensures IsSeen(la.seen, source, n) <==> IsSeen(lb.seen, source, n) {
      SameHeard(a, b, source, n);
    }
    forall e ensures e in la.accepted <==> e in lb.accepted {
      SameWanted(a, b, minLevel, e);
    }
    SameMembersSameCounts(la.accepted, lb.accepted);
    SameListKeys(la.accepted, lb.accepted, cap);
  }

  lemma {:induction false} SameHeard(a: seq<Arrival>, b: seq<Arrival>, source: string, n: nat)
    requires forall x :: x in a <==> x in b
    ensures Heard(a, source, n) <==> Heard(b, source, n)
  {
    if Heard(a, source, n) {
      var i :| 0 <= i < |a| && a[i].source == source && a[i].entry.seqNo == n && n > 0;
      assert a[i] in b;
    }
    if Heard(b, source, n) {
      var i :| 0 <= i < |b| && b[i].source == source && b[i].entry.seqNo == n && n > 0;
      assert b[i] in a;
    }
  }

  lemma {:induction false} SameWanted(a: seq<Arrival>, b: seq<Arrival>, minLevel: Level, e: Entry)
    requires forall x :: x in a <==> x in b
    ensures Wanted(a, minLevel, e) <==> Wanted(b, minLevel, e)
  {
    if Wanted(a, minLevel, e) {
      var i :| 0 <= i < |a| && IsWanted(a[i], minLevel, e);
      assert a[i] in b;
    }
    if Wanted(b, minLevel, e) {
      var i :| 0 <= i < |b| && IsWanted(b[i], minLevel, e);
      assert b[i] in a;
    }
  }

  lemma {:induction false} SameListKeys(a: seq<Entry>, b: seq<Entry>, cap: int)
    requires multiset(a) == multiset(b)
    ensures Keys(Last(Sort(a), cap)) == Keys(Last(Sort(b), cap))
  {
    SortIsSorted(a);
    SortIsSorted(b);
    SameEntriesSameKeys(Sort(a), Sort(b));
    KeysOfSorted(Sort(a));
    KeysOfSorted(Sort(b));
    SortedKeysAgree(Keys(Sort(a)), Keys(Sort(b)));
    KeysOfLast(Sort(a), cap);
    KeysOfLast(Sort(b), cap);
  }

  lemma {:induction false} KeysOfLast(entries: seq<Entry>, cap: int)
    ensures Keys(Last(entries, cap)) ==
            if cap <= 0 then [] else if |Keys(entries)| <= cap then Keys(entries) else Keys(entries)[|Keys(entries)| - cap..]
  {
  }
}
