/** A bounded pool of transfers, and the progress of a batch. */
module Upload {
  import opened Outcomes
  import opened Ordered

  // ---- the pool ----------------------------------------------------------------------------------

  function PoolSize(limit: int, count: nat): nat {
    var least := if limit < count then limit else count;
    if least < 1 then 1 else least
  }

  /** The workers that are busy. */
  function Busy(workers: seq<Option<nat>>): set<nat> { set w: nat | w < |workers| && workers[w].Some? :: w }

  lemma {:induction false} FewAreBusy(workers: seq<Option<nat>>)
    ensures |Busy(workers)| <= |workers|
  {
    if workers != [] {
      var before := workers[..|workers| - 1];
      FewAreBusy(before);
      forall w | w in Busy(workers) ensures w in Busy(before) + {|workers| - 1 as nat} {
        assert w < |before| ==> before[w] == workers[w];
      }
      forall w | w in Busy(before) ensures w in Busy(workers) {
        assert workers[w] == before[w];
      }
      assert Busy(workers) <= Busy(before) + {|workers| - 1};
      SubsetSize(Busy(workers), Busy(before) + {|workers| - 1});
    }
  }

  /** Runs tasks 0 to count - 1 on a few workers; tasks settle in any order, at any time. */
  class Pool<T> {
    const count: nat
    var next: nat
    var workers: seq<Option<nat>>
    var results: seq<Option<T>>

    /** The indices in the order they were started, and what each task gave. */
    ghost var started: seq<nat>
    ghost var given: map<nat, T>

    ghost predicate IsRunning(i: nat)
      reads this
    {
      exists w :: 0 <= w < |workers| && workers[w] == Some(i)
    }

    /** The indices below `next` were started, in order, each once. */
    ghost predicate InOrder()
      reads this
    {
      |started| == (if next < count then next else count) && forall i :: 0 <= i < |started| ==> started[i] == i
    }

    /** Each of the first `n` indices is running on one worker, or its result stands in its place; nothing else is. */
    ghost predicate Handled(n: nat)
      reads this
    {
      && |results| == count && n <= count
      && (forall v, w :: 0 <= v < w < |workers| && workers[v].Some? ==> workers[v] != workers[w])
      && (forall w :: 0 <= w < |workers| && workers[w].Some? ==> workers[w].value < n && workers[w].value !in given)
      && (forall i :: 0 <= i < n ==> i in given || IsRunning(i))
      && (forall i :: i in given ==> i < n && results[i] == Some(given[i]))
      && (forall i :: 0 <= i < count && i !in given ==> results[i] == None)
    }

    ghost predicate Valid()
      reads this
    {
      InOrder() && Handled(|started|)
    }

    /** A worker rests only when everything has been started. */
    ghost predicate AllStarted()
      reads this
    {
      forall w :: 0 <= w < |workers| && workers[w].None? ==> |started| == count
    }

    /** All workers are created, and each starts on the next index, if there is one. */
    constructor (count: nat, limit: int)
      ensures Valid() && AllStarted() && given == map[]
      ensures this.count == count && |workers| == PoolSize(limit, count)
      ensures |workers| >= 1 && (|workers| <= limit || |workers| == 1) && (|workers| <= count || |workers| == 1)
      ensures |workers| == limit || |workers| == count || (|workers| == 1 && (limit < 1 || count < 1))
    {
      this.count := count;
      next, results, started, given := 0, seq(count, i => None), [], map[];
      workers := seq(PoolSize(limit, count), w => None);
      new;
      for w := 0 to |workers|
        invariant Valid() && given == map[] && |workers| == PoolSize(limit, count)
        invariant forall v :: 0 <= v < w && workers[v].None? ==> |started| == count
        invariant forall v :: w <= v < |workers| ==> workers[v].None?
      {
        var taken := Take();
        Assign(w, taken);
      }
    }

    /** Takes the next index; the counter moves on even when there is none. */
    method Take() returns (index: Option<nat>)
      requires InOrder()
      modifies `next, `started
      ensures InOrder()
      ensures index == if old(next) < count then Some(old(next)) else None
      ensures started == if old(next) < count then old(started) + [old(next)] else old(started)
    {
      index := if next < count then Some(next) else None;
      if next < count {
        started := started + [next];
      }
      next := next + 1;
    }

    /** Worker `w` starts on the index it has taken, or rests. */
    method Assign(w: nat, taken: Option<nat>)
      requires InOrder() && w < |workers| && workers[w].None?
      requires if taken.Some? then |started| == taken.value + 1 && Handled(taken.value) else |started| == count && Handled(count)
      modifies `workers
      ensures Valid() && workers == old(workers)[w := taken]
    {
      workers := workers[w := taken];
      forall i | 0 <= i < |started| && i !in given ensures IsRunning(i) {
        if taken == Some(i) {
          assert workers[w] == Some(i);
        } else {
          assert old(IsRunning(i));
          var v :| 0 <= v < |old(workers)| && old(workers)[v] == Some(i);
          assert workers[v] == Some(i);
        }
      }
    }

    /** The task of a worker settles: its result takes its place, and the worker goes on with the next index. */
    method TaskSettles(w: nat, value: T)
      requires Valid() && AllStarted() && w < |workers| && workers[w].Some?
      modifies this
      ensures Valid() && AllStarted() && |workers| == |old(workers)|
      ensures given == old(given)[old(workers)[w].value := value]
      ensures results == old(results)[old(workers)[w].value := Some(value)]
      ensures old(started) <= started
    {
      Store(w, value);
      var taken := Take();
      Assign(w, taken);
    }

    method Store(w: nat, value: T)
      requires Valid() && w < |workers| && workers[w].Some?
      modifies `results, `given, `workers
      ensures Valid() && workers == old(workers)[w := None]
      ensures given == old(given)[old(workers)[w].value := value]
      ensures results == old(results)[old(workers)[w].value := Some(value)]
    {
      var index := workers[w].value;
      results := results[index := Some(value)];
      given := given[index := value];
      workers := workers[w := None];
      forall i | 0 <= i < |started| && i !in given ensures IsRunning(i) {
        assert old(IsRunning(i));
        var v :| 0 <= v < |old(workers)| && old(workers)[v] == Some(i);
        assert workers[v] == Some(i);
      }
    }

    /** Never more tasks in flight than the pool has workers. */
    method InFlight() returns (running: nat)
      ensures running == |Busy(workers)| && running <= |workers|
    {
      FewAreBusy(workers);
      running := |Busy(workers)|;
    }

    /** When every worker rests, every task was started once and its result stands at its index. */
    method Results() returns (all: seq<T>)
      requires Valid() && AllStarted() && |workers| > 0
      requires forall w :: 0 <= w < |workers| ==> workers[w].None?
      ensures |all| == count == |started|
      ensures forall i :: 0 <= i < count ==> i in given && all[i] == given[i]
    {
      assert workers[0].None?;
      forall i: nat | i < count ensures i in given {
        assert i in given || IsRunning(i);
      }
      all := [];
      for i := 0 to count
        invariant |all| == i && forall j :: 0 <= j < i ==> j in given && all[j] == given[j]
      {
        all := all + [results[i].value];
      }
    }
  }

  // ---- the bar -----------------------------------------------------------------------------------

  datatype FileProgress = FileProgress(total: nat, sent: Option<nat>, settled: bool)

  /** What a file counts for. */
  function Counted(f: FileProgress): nat { if f.settled then f.total else if f.sent.Some? then f.sent.value else 0 }

  function SentBytes(files: seq<FileProgress>): nat {
    if files == [] then 0 else SentBytes(files[..|files| - 1]) + Counted(files[|files| - 1])
  }

  function TotalBytes(files: seq<FileProgress>): nat {
    if files == [] then 0 else TotalBytes(files[..|files| - 1]) + files[|files| - 1].total
  }

  /** No file counts for more than it has. */
  predicate WithinTotals(files: seq<FileProgress>) {
    forall i :: 0 <= i < |files| ==> files[i].sent.Some? ==> files[i].sent.value <= files[i].total
  }

  predicate AllSettled(files: seq<FileProgress>) { forall i :: 0 <= i < |files| ==> files[i].settled }

  /** Every file of `b` counts for at least as much as in `a`, out of the same total. */
  predicate Grows(a: seq<FileProgress>, b: seq<FileProgress>) {
    |a| == |b| && forall i :: 0 <= i < |a| ==> a[i].total == b[i].total && Counted(a[i]) <= Counted(b[i]) && (a[i].settled ==> b[i].settled)
  }

  lemma {:induction false} GrowingCountsMore(a: seq<FileProgress>, b: seq<FileProgress>)
    requires Grows(a, b)
    ensures SentBytes(a) <= SentBytes(b) && TotalBytes(a) == TotalBytes(b)
  {
    if a != [] {
      GrowingCountsMore(a[..|a| - 1], b[..|b| - 1]);
    }
  }

  /** The bar is never beyond its end, and at its end when every file is settled. */
  lemma {:induction false} SentIsWithinTotal(files: seq<FileProgress>)
    requires WithinTotals(files)
    ensures SentBytes(files) <= TotalBytes(files)
    ensures AllSettled(files) ==> SentBytes(files) == TotalBytes(files)
  {
    if files != [] {
      SentIsWithinTotal(files[..|files| - 1]);
    }
  }

  /** The sum changes by what the one file that changes counts for. */
  lemma {:induction false} OneFileCounts(files: seq<FileProgress>, index: nat, file: FileProgress)
    requires index < |files|
    ensures SentBytes(files[index := file]) - SentBytes(files) == Counted(file) - Counted(files[index])
  {
    var last := |files| - 1;
    if index < last {
      OneFileCounts(files[..last], index, file);
      assert files[index := file][..last] == files[..last][index := file];
    } else {
      assert files[index := file][..last] == files[..last];
    }
  }

  function Max(a: int, b: int): int { if a < b then b else a }

  function Min(a: int, b: int): int { if a < b then a else b }

  ghost predicate Rising(published: seq<nat>) {
    forall i, j :: 0 <= i < j < |published| ==> published[i] <= published[j]
  }

  class ProgressTracker {
    var files: seq<FileProgress>
    const totalBytes: nat
    ghost var published: seq<nat>

    /** What was published never went down, never beyond the total, and not beyond the present state. */
    ghost predicate Valid()
      reads this
    {
      && WithinTotals(files) && totalBytes == TotalBytes(files)
      && Rising(published) && forall i :: 0 <= i < |published| ==> published[i] <= SentBytes(files)
    }

    constructor (totals: seq<int>)
      ensures Valid() && published == [] && |files| == |totals|
      ensures forall i :: 0 <= i < |totals| ==> files[i].sent.None? && !files[i].settled
      ensures forall i :: 0 <= i < |totals| ==> files[i].total == if totals[i] < 0 then 0 else totals[i]
    {
      var all := seq(|totals|, i requires 0 <= i < |totals| => FileProgress(Max(0, totals[i]), None, false));
      var sum := 0;
      for i := 0 to |all|
        invariant sum == TotalBytes(all[..i])
      {
        assert all[..i + 1][..i] == all[..i];
        sum := sum + all[i].total;
      }
      assert all[..|all|] == all;
      files, totalBytes, published := all, sum, [];
    }

    /** A report of an executor; a thumbnail reports on top of the bytes of its file. Reports outside the file's range
        are clamped, and those after settling, or for no file, are ignored. */
    method Report(index: nat, sent: int)
      requires Valid()
      modifies `files, `published
      ensures Valid() && Grows(old(files), files) && old(published) <= published
      ensures index >= |old(files)| || old(files)[index].settled ==> files == old(files) && published == old(published)
      ensures index < |old(files)| && !old(files)[index].settled ==>
                var was, now := old(files)[index], files[index];
                var before := match was.sent case Some(n) => n case None => 0;
                && files == old(files)[index := now] && now.total == was.total && !now.settled && now.sent.Some?
                && before <= now.sent.value <= was.total
                && (before <= sent <= was.total ==> now.sent.value == sent)
                && (sent < before ==> now.sent.value == before) && (sent > was.total ==> now.sent.value == was.total)
                && SentBytes(files) == old(SentBytes(files)) + now.sent.value - before
    {
      if index >= |files| || files[index].settled {
        return;
      }
      var file := files[index];
      var next := Min(file.total, Max(sent, if file.sent.Some? then file.sent.value else 0));
      if file.sent == Some(next) {
        return;
      }
      OneFileCounts(files, index, file.(sent := Some(next)));
      Change(index, file.(sent := Some(next)));
    }

    /** Replaces the state of one file by a later one, and publishes. */
    method Change(index: nat, file: FileProgress)
      requires Valid() && index < |files|
      requires file.total == files[index].total && Counted(files[index]) <= Counted(file) && (files[index].settled ==> file.settled)
      requires file.sent.Some? ==> file.sent.value <= file.total
      modifies `files, `published
      ensures Valid() && files == old(files)[index := file] && Grows(old(files), files)
      ensures published == old(published) + [SentBytes(files)]
    {
      GrowingCountsMore(files, files[index := file]);
      files := files[index := file];
      published := published + [SentBytes(files)];
    }

    method Settle(index: nat)
      requires Valid()
      modifies `files, `published
      ensures Valid() && Grows(old(files), files) && old(published) <= published
      ensures files == if index < |old(files)| then old(files)[index := old(files)[index].(settled := true)] else old(files)
      ensures index < |old(files)| && !old(files)[index].settled ==>
                var was := old(files)[index];
                SentBytes(files) == old(SentBytes(files)) + was.total - (match was.sent case Some(n) => n case None => 0)
    {
      if index >= |files| || files[index].settled {
        return;
      }
      OneFileCounts(files, index, files[index].(settled := true));
      Change(index, files[index].(settled := true));
    }

    /** After the pool is done every file is settled, also those the server gave no ticket for: the bar is full. */
    method SettleAll()
      requires Valid()
      modifies `files, `published
      ensures Valid() && AllSettled(files) && SentBytes(files) == totalBytes && old(published) <= published
    {
      for i := 0 to |files|
        invariant Valid() && |files| == |old(files)| && old(published) <= published
        invariant forall j :: 0 <= j < i ==> files[j].settled
      {
        Settle(i);
      }
      SentIsWithinTotal(files);
    }

    /** Sent bytes and their ratio, between 0 and 1, and 1 when everything is settled. */
    method Snapshot() returns (sentBytes: nat, ratio: real)
      requires Valid()
      ensures sentBytes == SentBytes(files) <= totalBytes
      ensures 0.0 <= ratio <= 1.0 && (AllSettled(files) ==> ratio == 1.0)
      ensures totalBytes > 0 ==> IsRatio(ratio, sentBytes, totalBytes)
      ensures totalBytes == 0 && files != [] ==> IsRatio(ratio, SettledCount(files), |files|)
      ensures files == [] ==> ratio == 1.0
    {
      SentIsWithinTotal(files);
      var settled: nat := 0;
      sentBytes := 0;
      for i := 0 to |files|
        invariant sentBytes == SentBytes(files[..i]) && settled == SettledCount(files[..i]) <= i
      {
        assert files[..i + 1][..i] == files[..i];
        sentBytes := sentBytes + Counted(files[i]);
        if files[i].settled {
          settled := settled + 1;
        }
      }
      assert files[..|files|] == files;
      AllSettledCount(files);
      ratio := if totalBytes > 0 then Ratio(sentBytes, totalBytes)
               else if |files| > 0 then Ratio(settled, |files|) else 1.0;
    }
  }

  predicate IsRatio(r: real, part: nat, whole: nat) { r * whole as real == part as real }

  lemma {:induction false} AllSettledCount(files: seq<FileProgress>)
    ensures AllSettled(files) ==> SettledCount(files) == |files|
  {
    if files != [] {
      AllSettledCount(files[..|files| - 1]);
    }
  }

  /** How many files are settled. */
  function SettledCount(files: seq<FileProgress>): nat {
    if files == [] then 0
    else SettledCount(files[..|files| - 1]) + if files[|files| - 1].settled then 1 else 0
  }

  function Ratio(part: nat, whole: nat): (r: real)
    requires part <= whole && whole > 0
    ensures 0.0 <= r <= 1.0 && (part == whole ==> r == 1.0) && IsRatio(r, part, whole)
  {
    part as real / whole as real
  }
}
