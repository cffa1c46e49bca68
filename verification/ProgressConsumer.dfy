/** The latest snapshot of each task, for a bounded number of tasks. */
module ProgressConsumer {
  import opened Outcomes
  import opened Ordered
  import opened ProgressReporter

  type Store = JsMap<string, Snapshot>

  /** Position of the first finished task other than `keep`, or their number. */
  function FirstFinished(store: Store, ids: seq<string>, keep: string): (i: nat)
    ensures i <= |ids|
    ensures i < |ids| ==> IsFinished(store, ids[i], keep)
    ensures forall j :: 0 <= j < i ==> !IsFinished(store, ids[j], keep)
  {
    if ids == [] || IsFinished(store, ids[0], keep) then 0 else 1 + FirstFinished(store, ids[1..], keep)
  }

  predicate IsFinished(store: Store, id: string, keep: string) {
    id != keep && id in store.vals && Terminal(store.vals[id].state.status)
  }

  /** Position of the first task other than `keep`, or their number. */
  function FirstOther(ids: seq<string>, keep: string): (i: nat)
    ensures i <= |ids|
    ensures i < |ids| ==> ids[i] != keep
    ensures forall j :: 0 <= j < i ==> ids[j] == keep
  {
    if ids == [] || ids[0] != keep then 0 else 1 + FirstOther(ids[1..], keep)
  }

  /** Drops one task when there are too many: the oldest finished one, else the oldest one, never `keep`. */
  function Evict(store: Store, maxTasks: int, keep: string): Store {
    if |store.vals| <= maxTasks then store
    else
      var finished, other := FirstFinished(store, store.order, keep), FirstOther(store.order, keep);
      if finished < |store.order| then Delete(store, store.order[finished])
      else if other < |store.order| then Delete(store, store.order[other])
      else store
  }

  predicate IsStale(store: Store, s: Snapshot) { s.id in store.vals && s.seqNo <= store.vals[s.id].seqNo }

  function Consume(store: Store, maxTasks: int, s: Snapshot): Store {
    if IsStale(store, s) then store
    else if s.id in store.vals then Put(store, s.id, s)
    else Evict(Put(store, s.id, s), maxTasks, s.id)
  }

  /** Tasks are filed under their own id, and there are not too many. */
  ghost predicate Bounded(store: Store, maxTasks: int) {
    Valid(store) && |store.vals| <= maxTasks && forall id :: id in store.vals ==> store.vals[id].id == id
  }

  lemma {:induction false} EvictIsBounded(store: Store, maxTasks: int, keep: string)
    requires Valid(store) && keep in store.vals && 1 <= maxTasks && |store.vals| <= maxTasks + 1
    ensures var r := Evict(store, maxTasks, keep);
            && Valid(r) && |r.vals| <= maxTasks && keep in r.vals
            && (forall id :: id in r.vals ==> id in store.vals && r.vals[id] == store.vals[id])
            && (|store.vals| <= maxTasks ==> r == store)
  {
    if |store.vals| > maxTasks {
      var other := FirstOther(store.order, keep);
      SizeIsOrder(store);
      assert store.order[0] == keep ==> store.order[1] != keep;
      assert other < |store.order|;
      DeleteIsValid(store, store.order[other]);
      var finished := FirstFinished(store, store.order, keep);
      if finished < |store.order| {
        DeleteIsValid(store, store.order[finished]);
      }
    }
  }

  lemma {:induction false} PutSize(store: Store, id: string, s: Snapshot)
    ensures |Put(store, id, s).vals| == |store.vals| + if id in store.vals then 0 else 1
  {
    if id in store.vals {
      assert store.vals[id := s].Keys == store.vals.Keys;
      assert |store.vals[id := s].Keys| == |store.vals[id := s]| && |store.vals.Keys| == |store.vals|;
    }
  }

  lemma {:induction false} NewcomerIsKept(store: Store, maxTasks: int, s: Snapshot)
    requires Bounded(store, maxTasks) && 1 <= maxTasks && s.id !in store.vals
    ensures var r := Evict(Put(store, s.id, s), maxTasks, s.id);
            && Bounded(r, maxTasks) && s.id in r.vals && r.vals[s.id] == s
            && (forall id :: id in r.vals && id != s.id ==> id in store.vals && r.vals[id] == store.vals[id])
  {
    PutIsValid(store, s.id, s);
    PutSize(store, s.id, s);
    EvictIsBounded(Put(store, s.id, s), maxTasks, s.id);
  }

  /** A consumer never holds more tasks than it may, and what arrives is kept unless it is stale. */
  lemma {:induction false} ConsumeIsBounded(store: Store, maxTasks: int, s: Snapshot)
    requires Bounded(store, maxTasks) && 1 <= maxTasks
    ensures var r := Consume(store, maxTasks, s);
            && Bounded(r, maxTasks)
            && s.id in r.vals && (IsStale(store, s) || r.vals[s.id] == s)
            && (forall id :: id in r.vals && id != s.id ==> id in store.vals && r.vals[id] == store.vals[id])
  {
    if s.id !in store.vals {
      NewcomerIsKept(store, maxTasks, s);
    } else if !IsStale(store, s) {
      PutIsValid(store, s.id, s);
      PutSize(store, s.id, s);
    }
  }

  // ---- who is driven out ---------------------------------------------------------------------------

  predicate HasEnded(store: Store, id: string) {
    id in store.vals && (store.vals[id].state.status.Done? || store.vals[id].state.status.Error?)
  }

  /** The oldest task that has ended, or the oldest of all when none has. */
  predicate IsFirstToGo(store: Store, i: nat)
    requires i < |store.order|
  {
    if HasEnded(store, store.order[i]) then forall j :: 0 <= j < i ==> !HasEnded(store, store.order[j])
    else i == 0 && forall j :: 0 <= j < |store.order| ==> !HasEnded(store, store.order[j])
  }

  lemma {:induction false} DeletedAt(ids: seq<string>, i: nat)
    requires NoRepetition(ids) && i < |ids|
    ensures Without(ids, ids[i]) == ids[..i] + ids[i + 1..]
  {
    if i == 0 {
      WithoutAbsent(ids[1..], ids[0]);
    } else {
      DeletedAt(ids[1..], i - 1);
      assert ids[0] != ids[i];
      assert ids[1..][..i - 1] == ids[1..i] && ids[1..][i - 1 + 1..] == ids[i + 1..];
      assert ids[..i] == [ids[0]] + ids[1..i];
    }
  }

  /** A newcomer to a full store takes the place of the oldest task that has ended, or of the oldest one when none has;
      while there is room it drives nobody out. It is the youngest, and the others stay in their order. */
  lemma {:induction false} NewcomerDrivesOut(store: Store, maxTasks: int, s: Snapshot, i: nat)
    requires Bounded(store, maxTasks) && s.id !in store.vals && i < |store.order| && IsFirstToGo(store, i)
    ensures Consume(store, maxTasks, s) ==
              if |store.vals| < maxTasks then JsMap(store.order + [s.id], store.vals[s.id := s])
              else JsMap(store.order[..i] + store.order[i + 1..] + [s.id], store.vals[s.id := s] - {store.order[i]})
  {
    PutSize(store, s.id, s);
    if |store.vals| >= maxTasks {
      NewcomerIsFull(store, Put(store, s.id, s), maxTasks, s, i);
    }
  }

  lemma {:induction false} NewcomerIsFull(store: Store, put: Store, maxTasks: int, s: Snapshot, i: nat)
    requires Valid(store) && s.id !in store.vals && i < |store.order| && IsFirstToGo(store, i)
    requires put == JsMap(store.order + [s.id], store.vals[s.id := s]) && |put.vals| > maxTasks
    ensures Evict(put, maxTasks, s.id) == JsMap(store.order[..i] + store.order[i + 1..] + [s.id], put.vals - {store.order[i]})
  {
    GoesFirst(store, put, s, i);
    var ids := put.order;
    assert ids[i] == store.order[i];
    assert NoRepetition(ids);
    DeletedAt(ids, i);
    assert ids[..i] + ids[i + 1..] == store.order[..i] + store.order[i + 1..] + [s.id];
  }

  lemma {:induction false} GoesFirst(store: Store, put: Store, s: Snapshot, i: nat)
    requires Valid(store) && s.id !in store.vals && i < |store.order| && IsFirstToGo(store, i)
    requires put == JsMap(store.order + [s.id], store.vals[s.id := s])
    ensures var finished := FirstFinished(put, put.order, s.id);
            if finished < |put.order| then finished == i else i == 0 && FirstOther(put.order, s.id) == 0
  {
    forall j | 0 <= j < |store.order|
      ensures put.order[j] != s.id && (IsFinished(put, put.order[j], s.id) <==> HasEnded(store, store.order[j]))
    {
      assert store.order[j] in store.order;
    }
    assert !IsFinished(put, put.order[|store.order|], s.id);
  }

  /** A snapshot of a task that is shown changes nothing but what is shown of it, and that only if it is newer. */
  lemma {:induction false} KnownTaskStays(store: Store, maxTasks: int, s: Snapshot)
    requires s.id in store.vals
    ensures Consume(store, maxTasks, s) == JsMap(store.order, store.vals[s.id :=
              if s.seqNo > store.vals[s.id].seqNo then s else store.vals[s.id]])
  {
    assert store.vals[s.id := store.vals[s.id]] == store.vals;
  }

  function ConsumeAll(maxTasks: int, arrivals: seq<Snapshot>): Store {
    if arrivals == [] then Empty()
    else Consume(ConsumeAll(maxTasks, arrivals[..|arrivals| - 1]), maxTasks, arrivals[|arrivals| - 1])
  }

  lemma {:induction false} ConsumeOneMore(maxTasks: int, arrivals: seq<Snapshot>, s: Snapshot)
    ensures ConsumeAll(maxTasks, arrivals + [s]) == Consume(ConsumeAll(maxTasks, arrivals), maxTasks, s)
  {
    assert (arrivals + [s])[..|arrivals|] == arrivals;
  }

  /** Arrival `k` took task `id` in, and it has been retained ever since. */
  predicate RetainedSince(maxTasks: int, arrivals: seq<Snapshot>, id: string, k: nat)
    requires k < |arrivals|
  {
    var before := arrivals[..|arrivals| - 1];
    && id in ConsumeAll(maxTasks, arrivals).vals
    && (if k == |before| then id !in ConsumeAll(maxTasks, before).vals else RetainedSince(maxTasks, before, id, k))
  }

  lemma {:induction false} ConsumeAllIsBounded(maxTasks: int, arrivals: seq<Snapshot>)
    requires 1 <= maxTasks
    ensures Bounded(ConsumeAll(maxTasks, arrivals), maxTasks)
  {
    if arrivals != [] {
      ConsumeAllIsBounded(maxTasks, arrivals[..|arrivals| - 1]);
      ConsumeIsBounded(ConsumeAll(maxTasks, arrivals[..|arrivals| - 1]), maxTasks, arrivals[|arrivals| - 1]);
    }
  }

  ghost predicate IsGreatest(arrivals: seq<Snapshot>, k: nat, s: Snapshot) {
    && (exists i :: k <= i < |arrivals| && arrivals[i] == s)
    && forall i :: k <= i < |arrivals| && arrivals[i].id == s.id ==> arrivals[i].seqNo <= s.seqNo
  }

  /** In any order of arrival: a retained task shows its greatest snapshot, of all that arrived since it was last taken in. */
  lemma {:induction false} RetainedIsGreatest(maxTasks: int, arrivals: seq<Snapshot>, id: string, k: nat)
    requires 1 <= maxTasks && k < |arrivals| && RetainedSince(maxTasks, arrivals, id, k)
    ensures IsGreatest(arrivals, k, ConsumeAll(maxTasks, arrivals).vals[id])
    decreases |arrivals|
  {
    var before, last := arrivals[..|arrivals| - 1], arrivals[|arrivals| - 1];
    var store := ConsumeAll(maxTasks, before);
    ConsumeAllIsBounded(maxTasks, before);
    ConsumeIsBounded(store, maxTasks, last);
    assert arrivals == before + [last];
    if k == |before| {
      assert arrivals[k] == ConsumeAll(maxTasks, arrivals).vals[id];
    } else {
      RetainedIsGreatest(maxTasks, before, id, k);
      GreatestGrows(before, last, k, store.vals[id], ConsumeAll(maxTasks, arrivals).vals[id]);
    }
  }

  lemma {:induction false} GreatestGrows(before: seq<Snapshot>, last: Snapshot, k: nat, s: Snapshot, shown: Snapshot)
    requires IsGreatest(before, k, s) && k < |before|
    requires shown == if last.id == s.id && last.seqNo > s.seqNo then last else s
    ensures IsGreatest(before + [last], k, shown)
  {
    var all := before + [last];
    assert all[|before|] == last;
    var i :| k <= i < |before| && before[i] == s;
    assert all[i] == s;
  }

  // ---- few tasks: nothing is ever stale -------------------------------------------------------------

  function Ids(arrivals: seq<Snapshot>): set<string> {
    if arrivals == [] then {} else Ids(arrivals[..|arrivals| - 1]) + {arrivals[|arrivals| - 1].id}
  }

  /** The store holds these tasks and no others. */
  predicate HoldsExactly(store: Store, ids: set<string>) { store.vals.Keys == ids }

  lemma {:induction false} NobodyIsEvicted(store: Store, maxTasks: int, s: Snapshot, ids: set<string>)
    requires HoldsExactly(store, ids) && |ids + {s.id}| <= maxTasks
    ensures HoldsExactly(Consume(store, maxTasks, s), ids + {s.id})
    ensures Consume(store, maxTasks, s).vals == if IsStale(store, s) then store.vals else store.vals[s.id := s]
  {
    var put := Put(store, s.id, s);
    assert put.vals.Keys == ids + {s.id};
    assert |put.vals.Keys| == |put.vals|;
  }

  lemma {:induction false} FewTasksAreKept(maxTasks: int, arrivals: seq<Snapshot>)
    requires |Ids(arrivals)| <= maxTasks
    ensures HoldsExactly(ConsumeAll(maxTasks, arrivals), Ids(arrivals))
  {
    if arrivals != [] {
      var before, last := arrivals[..|arrivals| - 1], arrivals[|arrivals| - 1];
      SubsetSize(Ids(before), Ids(arrivals));
      FewTasksAreKept(maxTasks, before);
      NobodyIsEvicted(ConsumeAll(maxTasks, before), maxTasks, last, Ids(before));
    }
  }

  /** The task is shown with its greatest snapshot of all that arrived. */
  ghost predicate ShowsGreatest(store: Store, id: string, arrivals: seq<Snapshot>) {
    id in store.vals && store.vals[id].id == id && IsGreatest(arrivals, 0, store.vals[id])
  }

  lemma {:induction false} OneMoreShown(store: Store, store': Store, before: seq<Snapshot>, last: Snapshot, id: string)
    requires id in store.vals ==> ShowsGreatest(store, id, before)
    requires id !in store.vals ==> id !in Ids(before) && id == last.id
    requires id in store'.vals && store'.vals == if IsStale(store, last) then store.vals else store.vals[last.id := last]
    ensures ShowsGreatest(store', id, before + [last])
  {
    if id in store.vals {
      GreatestGrows(before, last, 0, store.vals[id], store'.vals[id]);
    } else {
      assert (before + [last])[|before|] == last;
      forall i | 0 <= i < |before| ensures before[i].id != id {
        IdIsKnown(before, i);
      }
    }
  }

  lemma {:induction false} IdIsKnown(arrivals: seq<Snapshot>, i: nat)
    requires i < |arrivals|
    ensures arrivals[i].id in Ids(arrivals)
  {
    if i < |arrivals| - 1 {
      IdIsKnown(arrivals[..|arrivals| - 1], i);
    }
  }

  /** As long as no more tasks than `maxTasks` have reported, every one of them is shown with its greatest snapshot, in
      any order of arrival and with any repetitions. */
  lemma {:induction false} FewTasksShowGreatest(maxTasks: int, arrivals: seq<Snapshot>, id: string)
    requires |Ids(arrivals)| <= maxTasks && id in Ids(arrivals)
    ensures ShowsGreatest(ConsumeAll(maxTasks, arrivals), id, arrivals)
  {
    var before, last := arrivals[..|arrivals| - 1], arrivals[|arrivals| - 1];
    SubsetSize(Ids(before), Ids(arrivals));
    FewTasksAreKept(maxTasks, before);
    FewTasksAreKept(maxTasks, arrivals);
    NobodyIsEvicted(ConsumeAll(maxTasks, before), maxTasks, last, Ids(before));
    if id in Ids(before) {
      FewTasksShowGreatest(maxTasks, before, id);
    }
    assert arrivals == before + [last];
    OneMoreShown(ConsumeAll(maxTasks, before), ConsumeAll(maxTasks, arrivals), before, last, id);
  }

  // ---- many tasks: when a shown snapshot may be stale -------------------------------------------------

  ghost predicate DrawnFrom(arrivals: seq<Snapshot>, all: set<Snapshot>) {
    forall i :: 0 <= i < |arrivals| ==> arrivals[i] in all
  }

  /** Whatever of these snapshots arrives, in whatever order: no task is ever shown with less than it has reported. */
  ghost predicate NeverStale(maxTasks: int, all: set<Snapshot>) {
    forall arrivals :: DrawnFrom(arrivals, all) ==> NothingStale(ConsumeAll(maxTasks, arrivals), arrivals)
  }

  ghost predicate NothingStale(store: Store, arrivals: seq<Snapshot>) {
    forall i {:trigger arrivals[i]} :: 0 <= i < |arrivals| && arrivals[i].id in store.vals ==>
      arrivals[i].seqNo <= store.vals[arrivals[i].id].seqNo
  }

  predicate IsOpen(s: Snapshot) { !Terminal(s.state.status) }

  /** Snapshots of different tasks, none of them `id`. */
  ghost predicate AreOthers(others: seq<Snapshot>, id: string) {
    && (forall i :: 0 <= i < |others| ==> others[i].id != id)
    && (forall i, j :: 0 <= i < j < |others| ==> others[i].id != others[j].id)
  }

  /** Snapshots that drive out a task shown with `w`: there are `maxTasks` of them, of different other tasks, and unless
      `w` is terminal all but the last are not. */
  ghost predicate DriveOut(others: seq<Snapshot>, maxTasks: int, w: Snapshot) {
    && |others| == maxTasks && AreOthers(others, w.id)
    && (IsOpen(w) ==> forall i :: 0 <= i < |others| - 1 ==> IsOpen(others[i]))
  }

  ghost predicate IsEvictable(all: set<Snapshot>, maxTasks: int, w: Snapshot) {
    exists others :: DrawnFrom(others, all) && DriveOut(others, maxTasks, w)
  }

  /** Some task has a snapshot it can be evicted with, and an older one to come back with. */
  ghost predicate MayComeBackOlder(maxTasks: int, all: set<Snapshot>) {
    exists s, w :: s in all && w in all && s.id == w.id && s.seqNo < w.seqNo && IsEvictable(all, maxTasks, w)
  }

  /** Up to `maxTasks` tasks are taken in one after another. */
  ghost predicate HoldsInOrder(store: Store, taken: seq<Snapshot>) {
    && |store.order| == |taken| && |store.vals| == |taken|
    && (forall i :: 0 <= i < |taken| ==> store.order[i] == taken[i].id)
    && (forall i :: 0 <= i < |taken| ==> taken[i].id in store.vals && store.vals[taken[i].id] == taken[i])
    && (forall id :: id in store.vals ==> exists i :: 0 <= i < |taken| && taken[i].id == id)
  }

  ghost predicate DistinctIds(taken: seq<Snapshot>) {
    forall i, j :: 0 <= i < j < |taken| ==> taken[i].id != taken[j].id
  }

  lemma {:induction false} TakenInOrder(maxTasks: int, taken: seq<Snapshot>)
    requires DistinctIds(taken) && |taken| <= maxTasks
    ensures HoldsInOrder(ConsumeAll(maxTasks, taken), taken)
  {
    if taken != [] {
      var before, last := taken[..|taken| - 1], taken[|taken| - 1];
      assert taken == before + [last];
      TakenInOrder(maxTasks, before);
      IsNewcomer(ConsumeAll(maxTasks, before), before, last);
      OneMoreTaken(ConsumeAll(maxTasks, before), before, last);
    }
  }

  lemma {:induction false} IsNewcomer(store: Store, taken: seq<Snapshot>, last: Snapshot)
    requires HoldsInOrder(store, taken) && DistinctIds(taken + [last])
    ensures last.id !in store.vals
  {
    var more := taken + [last];
    forall i | 0 <= i < |taken| ensures taken[i].id != last.id {
      assert more[i].id != more[|taken|].id;
    }
  }

  lemma {:induction false} OneMoreTaken(store: Store, taken: seq<Snapshot>, last: Snapshot)
    requires HoldsInOrder(store, taken) && last.id !in store.vals
    ensures HoldsInOrder(Put(store, last.id, last), taken + [last])
  {
    PutSize(store, last.id, last);
    var more := taken + [last];
    forall id | id in Put(store, last.id, last).vals ensures exists i :: 0 <= i < |more| && more[i].id == id {
      if id == last.id {
        assert more[|taken|].id == id;
      } else {
        var i :| 0 <= i < |taken| && taken[i].id == id;
        assert more[i].id == id;
      }
    }
  }

  /** The oldest task goes, when it is finished or nobody but the newcomer is. */
  lemma {:induction false} OldestGoes(store: Store, maxTasks: int, taken: seq<Snapshot>, last: Snapshot)
    requires HoldsInOrder(store, taken) && DistinctIds(taken + [last]) && 1 <= maxTasks == |taken|
    requires IsOpen(taken[0]) ==> forall i :: 0 <= i < |taken| ==> IsOpen(taken[i])
    ensures taken[0].id !in Consume(store, maxTasks, last).vals
  {
    var put, more := Put(store, last.id, last), taken + [last];
    IsNewcomer(store, taken, last);
    PutSize(store, last.id, last);
    assert put.order[0] == more[0].id != more[|taken|].id;
    if IsOpen(taken[0]) {
      NobodyFinished(store, taken, last);
    } else {
      assert put.vals[put.order[0]] == taken[0] && IsFinished(put, put.order[0], last.id);
    }
  }

  lemma {:induction false} NobodyFinished(store: Store, taken: seq<Snapshot>, last: Snapshot)
    requires HoldsInOrder(store, taken) && last.id !in store.vals && forall i :: 0 <= i < |taken| ==> IsOpen(taken[i])
    ensures var put := Put(store, last.id, last); FirstFinished(put, put.order, last.id) == |put.order|
  {
    var put := Put(store, last.id, last);
    assert forall i :: 0 <= i < |taken| ==> put.order[i] == taken[i].id && !IsFinished(put, put.order[i], last.id);
  }

  lemma {:induction false} DrivenOut(maxTasks: int, w: Snapshot, others: seq<Snapshot>)
    requires 1 <= maxTasks && DriveOut(others, maxTasks, w)
    ensures w.id !in ConsumeAll(maxTasks, [w] + others).vals
  {
    var taken, last := [w] + others[..maxTasks - 1], others[maxTasks - 1];
    assert [w] + others == taken + [last];
    assert DistinctIds([w] + others);
    assert DistinctIds(taken);
    TakenInOrder(maxTasks, taken);
    OldestGoes(ConsumeAll(maxTasks, taken), maxTasks, taken, last);
    ConsumeOneMore(maxTasks, taken, last);
  }

  /** A task is taken in, driven out by others, and comes back with an older snapshot: nothing is remembered about it. */
  lemma {:induction false} EvictedMayComeBackOlder(maxTasks: int, s: Snapshot, w: Snapshot, others: seq<Snapshot>)
    requires 1 <= maxTasks && s.id == w.id && DriveOut(others, maxTasks, w)
    ensures var store := ConsumeAll(maxTasks, [w] + others + [s]); s.id in store.vals && store.vals[s.id] == s
  {
    DrivenOut(maxTasks, w, others);
    ConsumeAllIsBounded(maxTasks, [w] + others);
    ConsumeIsBounded(ConsumeAll(maxTasks, [w] + others), maxTasks, s);
    ConsumeOneMore(maxTasks, [w] + others, s);
  }

  /** Everything in the store has arrived. */
  lemma {:induction false} StoreHasArrived(maxTasks: int, arrivals: seq<Snapshot>, all: set<Snapshot>)
    requires 1 <= maxTasks && DrawnFrom(arrivals, all)
    ensures var store := ConsumeAll(maxTasks, arrivals);
            Bounded(store, maxTasks) && forall id :: id in store.vals ==> store.vals[id] in all
  {
    ConsumeAllIsBounded(maxTasks, arrivals);
    if arrivals != [] {
      var before, last := arrivals[..|arrivals| - 1], arrivals[|arrivals| - 1];
      StoreHasArrived(maxTasks, before, all);
      ConsumeIsBounded(ConsumeAll(maxTasks, before), maxTasks, last);
    }
  }

  lemma {:induction false} WithoutSize(ids: seq<string>, id: string)
    requires id in ids && forall i, j :: 0 <= i < j < |ids| ==> ids[i] != ids[j]
    ensures |Without(ids, id)| == |ids| - 1
  {
    if ids[0] == id {
      WithoutAbsent(ids[1..], id);
    } else {
      WithoutSize(ids[1..], id);
    }
  }

  lemma {:induction false} WithoutAbsent(ids: seq<string>, id: string)
    requires id !in ids
    ensures Without(ids, id) == ids
  {
    if ids != [] {
      WithoutAbsent(ids[1..], id);
    }
  }

  /** The snapshots of some tasks in the store, and the newcomer. */
  function Rivals(store: Store, ids: seq<string>, last: Snapshot): seq<Snapshot>
    requires forall i :: 0 <= i < |ids| ==> ids[i] in store.vals
  {
    seq(|ids|, i requires 0 <= i < |ids| => store.vals[ids[i]]) + [last]
  }

  lemma {:induction false} RivalsAreOthers(store: Store, ids: seq<string>, last: Snapshot, id: string)
    requires forall i :: 0 <= i < |ids| ==> ids[i] in store.vals && store.vals[ids[i]].id == ids[i] && ids[i] != id
    requires forall i, j :: 0 <= i < j < |ids| ==> ids[i] != ids[j]
    requires last.id !in store.vals && last.id != id
    ensures AreOthers(Rivals(store, ids, last), id)
  {
    var others := Rivals(store, ids, last);
    assert forall i :: 0 <= i < |ids| ==> others[i].id == ids[i] && others[i].id != last.id;
  }

  /** Who is evicted is driven out by the rest of the store and the newcomer. */
  lemma {:induction false} EvictedIsEvictable(store: Store, maxTasks: int, last: Snapshot, id: string, all: set<Snapshot>)
    requires 1 <= maxTasks && Bounded(store, maxTasks) && last in all && forall k :: k in store.vals ==> store.vals[k] in all
    requires id in store.vals && id !in Consume(store, maxTasks, last).vals
    ensures IsEvictable(all, maxTasks, store.vals[id])
  {
    var rest := Without(store.order, id);
    RestIsFiled(store, maxTasks, id);
    StoreIsFull(store, maxTasks, last, id);
    RivalsAreOthers(store, rest, last, id);
    RivalsAreOpen(store, maxTasks, last, id, rest);
    var others := Rivals(store, rest, last);
    assert store.vals[id].id == id;
    assert DrawnFrom(others, all) && DriveOut(others, maxTasks, store.vals[id]);
  }

  lemma {:induction false} RestIsFiled(store: Store, maxTasks: int, id: string)
    requires Bounded(store, maxTasks)
    ensures var rest := Without(store.order, id);
            && (forall i :: 0 <= i < |rest| ==> rest[i] in store.vals && store.vals[rest[i]].id == rest[i] && rest[i] != id)
            && (forall i, j :: 0 <= i < j < |rest| ==> rest[i] != rest[j])
  {
    WithoutFacts(store.order, id);
  }

  lemma {:induction false} StoreIsFull(store: Store, maxTasks: int, last: Snapshot, id: string)
    requires Bounded(store, maxTasks) && id in store.vals && id !in Consume(store, maxTasks, last).vals
    ensures last.id !in store.vals && id != last.id && |Without(store.order, id)| == maxTasks - 1
  {
    WithoutSize(store.order, id);
    SizeIsOrder(store);
    PutSize(store, last.id, last);
  }

  lemma {:induction false} NobodyElseFinished(store: Store, maxTasks: int, last: Snapshot, id: string, other: string)
    requires Bounded(store, maxTasks) && id in store.vals && id !in Consume(store, maxTasks, last).vals
    requires IsOpen(store.vals[id]) && other in store.vals && other != id
    ensures IsOpen(store.vals[other])
  {
    var put := Put(store, last.id, last);
    assert last.id !in store.vals;
    assert FirstFinished(put, put.order, last.id) == |put.order|;
    var i :| 0 <= i < |store.order| && store.order[i] == other;
    assert put.order[i] == other && !IsFinished(put, other, last.id);
  }

  lemma {:induction false} RivalsAreOpen(store: Store, maxTasks: int, last: Snapshot, id: string, ids: seq<string>)
    requires Bounded(store, maxTasks) && id in store.vals && id !in Consume(store, maxTasks, last).vals
    requires forall i :: 0 <= i < |ids| ==> ids[i] in store.vals && ids[i] != id
    ensures IsOpen(store.vals[id]) ==> forall i :: 0 <= i < |ids| ==> IsOpen(Rivals(store, ids, last)[i])
  {
    if IsOpen(store.vals[id]) {
      forall i | 0 <= i < |ids| ensures IsOpen(Rivals(store, ids, last)[i]) {
        NobodyElseFinished(store, maxTasks, last, id, ids[i]);
      }
    }
  }

  /** What has arrived is shown, or something greater; or its task was evicted with something as great. */
  lemma {:induction false} ShownOrEvicted(maxTasks: int, arrivals: seq<Snapshot>, all: set<Snapshot>, i: nat)
    requires 1 <= maxTasks && DrawnFrom(arrivals, all) && i < |arrivals|
    ensures IsShown(ConsumeAll(maxTasks, arrivals), arrivals[i]) || WasEvictable(maxTasks, all, arrivals[i])
    decreases |arrivals|
  {
    var before, last := arrivals[..|arrivals| - 1], arrivals[|arrivals| - 1];
    var store, u := ConsumeAll(maxTasks, before), arrivals[i];
    StoreHasArrived(maxTasks, before, all);
    ConsumeIsBounded(store, maxTasks, last);
    if i < |before| {
      ShownOrEvicted(maxTasks, before, all, i);
      if IsShown(store, u) && u.id !in ConsumeAll(maxTasks, arrivals).vals {
        EvictedIsEvictable(store, maxTasks, last, u.id, all);
      }
    }
  }

  predicate IsShown(store: Store, u: Snapshot) { u.id in store.vals && u.seqNo <= store.vals[u.id].seqNo }

  ghost predicate WasEvictable(maxTasks: int, all: set<Snapshot>, u: Snapshot) {
    exists w :: w in all && w.id == u.id && u.seqNo <= w.seqNo && IsEvictable(all, maxTasks, w)
  }

  lemma {:induction false} ComebackIsStale(maxTasks: int, all: set<Snapshot>)
    requires 1 <= maxTasks && MayComeBackOlder(maxTasks, all)
    ensures !NeverStale(maxTasks, all)
  {
    var s, w :| s in all && w in all && s.id == w.id && s.seqNo < w.seqNo && IsEvictable(all, maxTasks, w);
    var others :| DrawnFrom(others, all) && DriveOut(others, maxTasks, w);
    var arrivals := [w] + others + [s];
    EvictedMayComeBackOlder(maxTasks, s, w, others);
    assert DrawnFrom(arrivals, all) && arrivals[0] == w;
    assert !NothingStale(ConsumeAll(maxTasks, arrivals), arrivals);
  }

  /** A task can be shown with less than it has reported if and only if it has a snapshot it can be evicted with, and an
      older one to come back with. */
  lemma {:induction false} WhenNothingIsStale(maxTasks: int, all: set<Snapshot>)
    requires 1 <= maxTasks
    ensures NeverStale(maxTasks, all) <==> !MayComeBackOlder(maxTasks, all)
  {
    if MayComeBackOlder(maxTasks, all) {
      ComebackIsStale(maxTasks, all);
    } else {
      forall arrivals | DrawnFrom(arrivals, all) ensures NothingStale(ConsumeAll(maxTasks, arrivals), arrivals) {
        StaleMeansComeback(maxTasks, arrivals, all);
      }
    }
  }

  lemma {:induction false} StaleMeansComeback(maxTasks: int, arrivals: seq<Snapshot>, all: set<Snapshot>)
    requires 1 <= maxTasks && DrawnFrom(arrivals, all) && !MayComeBackOlder(maxTasks, all)
    ensures NothingStale(ConsumeAll(maxTasks, arrivals), arrivals)
  {
    var store := ConsumeAll(maxTasks, arrivals);
    StoreHasArrived(maxTasks, arrivals, all);
    forall i | 0 <= i < |arrivals| && arrivals[i].id in store.vals
      ensures arrivals[i].seqNo <= store.vals[arrivals[i].id].seqNo
    {
      ShownOrEvicted(maxTasks, arrivals, all, i);
      assert store.vals[arrivals[i].id] in all;
    }
  }

  class Consumer {
    const maxTasks: int
    var store: Store
    ghost var arrivals: seq<Snapshot>

    ghost predicate Valid()
      reads this
    {
      1 <= maxTasks && store == ConsumeAll(maxTasks, arrivals)
    }

    constructor (maxTasks: int)
      ensures Valid() && arrivals == [] && this.maxTasks == if maxTasks < 1 then 1 else maxTasks
    {
      this.maxTasks := if maxTasks < 1 then 1 else maxTasks;
      store, arrivals := Empty(), [];
    }

    method EvictOne(keep: string)
      requires Ordered.Valid(store)
      modifies `store
      ensures store == Evict(old(store), maxTasks, keep)
    {
      if |store.vals| <= maxTasks {
        return;
      }
      var ids := store.order;
      for i := 0 to |ids|
        invariant store == old(store)
        invariant forall j :: 0 <= j < i ==> !IsFinished(store, ids[j], keep)
      {
        if IsFinished(store, ids[i], keep) {
          store := Delete(store, ids[i]);
          return;
        }
      }
      for i := 0 to |ids|
        invariant store == old(store)
        invariant forall j :: 0 <= j < i ==> ids[j] == keep
      {
        if ids[i] != keep {
          store := Delete(store, ids[i]);
          return;
        }
      }
    }

    method Receive(s: Snapshot) returns (applied: bool, created: bool)
      requires Valid()
      modifies this
      ensures Valid() && arrivals == old(arrivals) + [s] && |store.vals| <= maxTasks
      ensures applied == !old(IsStale(store, s))
      ensures applied ==> created == (s.id !in old(store).vals) && store.vals[s.id] == s
    {
      ConsumeAllIsBounded(maxTasks, arrivals);
      ConsumeIsBounded(store, maxTasks, s);
      arrivals := arrivals + [s];
      assert arrivals[..|arrivals| - 1] == old(arrivals);
      applied, created := !IsStale(store, s), s.id !in store.vals;
      if applied {
        PutIsValid(store, s.id, s);
        store := Put(store, s.id, s);
        if created {
          EvictOne(s.id);
        }
      }
    }
  }
}
