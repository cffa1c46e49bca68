/** Progress of tasks, reported with throttling: every change of an unfinished task is sent, at the latest when closing. */
module ProgressReporter {
  import opened Outcomes
  import opened Ordered

  datatype Status = Pending | Running | Done | Error

  predicate Terminal(s: Status) { s.Done? || s.Error? }

  /** What a gauge measures, and what an update may set besides the status. */
  datatype Measure = Measure(percent: Option<int>, step: Option<int>, totalSteps: Option<int>, caption: Option<string>)

  datatype State = State(status: Status, measure: Measure, error: Option<string>, meta: Option<string>)

  /** `running` is the status an update asks for, if any: false stands for pending. */
  datatype Patch = Patch(running: Option<bool>, measure: Measure, error: Option<string>, meta: Option<string>)

  datatype Snapshot = Snapshot(id: string, state: State, seqNo: nat)

  datatype Task = Task(local: State, last: Snapshot, timer: bool, dirty: bool, closed: bool)

  function Or<T>(a: Option<T>, b: Option<T>): Option<T> { if a.Some? then a else b }

  /** The fields of `a`, and those of `b` where `a` has none. */
  function Merge(a: Measure, b: Measure): Measure {
    Measure(Or(a.percent, b.percent), Or(a.step, b.step), Or(a.totalSteps, b.totalSteps), Or(a.caption, b.caption))
  }

  /** What an emission depends on besides the task: the gauge's measure, if there is a gauge that does not throw, and
      whether the packet with meta would be over the size limit. */
  datatype Reading = Reading(gauge: Option<Measure>, tooLarge: bool)

  function ReadingOf(readings: map<string, Reading>, id: string): Reading {
    if id in readings then readings[id] else Reading(None, false)
  }

  /** A gauge fills the fields that the local state does not have, and only meta that is too large is left out. */
  predicate Reads(s: Snapshot, local: State, reading: Reading) {
    && (reading.gauge.Some? ==> TakesMeasure(reading.gauge.value, local.measure, s.state.measure))
    && (reading.gauge.None? ==> s.state.measure == local.measure)
    && s.state.meta == if reading.tooLarge then None else local.meta
  }

  const NO_MEASURE := Measure(None, None, None, None)

  /** A patch never erases a field, and never takes a running task back to pending. */
  function Patched(s: State, p: Patch): State {
    var status :=
      if p.running.None? || (!p.running.value && s.status.Running?) then s.status
      else if p.running.value then Running else Pending;
    State(status, Merge(p.measure, s.measure), Or(p.error, s.error), Or(p.meta, s.meta))
  }

  /** What is given takes the place of what was there; what is not given stays. */
  predicate Takes<T(==)>(before: Option<T>, given: Option<T>, after: Option<T>) {
    if given.Some? then after == given else after == before
  }

  predicate TakesMeasure(before: Measure, given: Measure, after: Measure) {
    && Takes(before.percent, given.percent, after.percent) && Takes(before.step, given.step, after.step)
    && Takes(before.totalSteps, given.totalSteps, after.totalSteps) && Takes(before.caption, given.caption, after.caption)
  }

  /** Every field the patch gives is what the state then says, except that a running task does not become pending. */
  predicate IsPatched(before: State, p: Patch, after: State) {
    && TakesMeasure(before.measure, p.measure, after.measure)
    && Takes(before.error, p.error, after.error) && Takes(before.meta, p.meta, after.meta)
    && (p.running == Some(true) ==> after.status.Running?)
    && (p.running == Some(false) ==> after.status == if before.status.Running? then Running else Pending)
    && (p.running.None? ==> after.status == before.status)
  }

  /** The snapshot says what the local state says, apart from what a gauge added and from meta that was too large. */
  predicate Agrees(s: Snapshot, local: State) {
    && s.state.status == local.status && s.state.error == local.error
    && Merge(local.measure, s.state.measure) == s.state.measure
    && (s.state.meta == local.meta || s.state.meta.None?)
  }

  /** `s` is the last snapshot of task `id`. */
  ghost predicate IsLast(emitted: seq<Snapshot>, id: string, s: Snapshot) {
    exists i :: 0 <= i < |emitted| && emitted[i] == s && s.id == id && forall j :: i < j < |emitted| ==> emitted[j].id != id
  }

  lemma {:induction false} StaysLast(emitted: seq<Snapshot>, s: Snapshot, other: string, last: Snapshot)
    requires IsLast(emitted, other, last) && s.id != other
    ensures IsLast(emitted + [s], other, last)
  {
    var k :| 0 <= k < |emitted| && emitted[k] == last && forall j :: k < j < |emitted| ==> emitted[j].id != other;
    assert (emitted + [s])[k] == last;
  }

  ghost predicate TerminalIsLast(emitted: seq<Snapshot>) {
    forall i, j :: 0 <= i < j < |emitted| && emitted[i].id == emitted[j].id ==> !Terminal(emitted[i].state.status)
  }

  lemma {:induction false} OneMoreSnapshot(emitted: seq<Snapshot>, s: Snapshot, last: Snapshot)
    requires TerminalIsLast(emitted) && IsLast(emitted, s.id, last) && !Terminal(last.state.status)
    ensures TerminalIsLast(emitted + [s])
  {
    var k :| 0 <= k < |emitted| && emitted[k] == last && forall j :: k < j < |emitted| ==> emitted[j].id != s.id;
    forall i | 0 <= i < |emitted| && emitted[i].id == s.id ensures !Terminal(emitted[i].state.status) {
      assert i <= k;
    }
  }

  predicate Quiet(t: Task) { !t.timer && !t.dirty }

  /** The first `n` tasks have no open window and nothing unsent; the others are as they were. */
  predicate AreQuiet(start: map<string, Task>, tasks: map<string, Task>, ids: seq<string>, n: nat) {
    forall i :: 0 <= i < |ids| ==> ids[i] in tasks && if i < n then Quiet(tasks[ids[i]]) else ids[i] in start && tasks[ids[i]] == start[ids[i]]
  }

  predicate IsRunning(t: Task) { !t.closed && t.local.status.Running? }

  /** The ids of the running tasks, in order. */
  function RunningIds(tasks: map<string, Task>, ids: seq<string>): seq<string> {
    if ids == [] then []
    else
      var last := ids[|ids| - 1];
      RunningIds(tasks, ids[..|ids| - 1]) + if last in tasks && IsRunning(tasks[last]) then [last] else []
  }

  /** The tasks that are sent again are those that run, and the tasks closing tells about those with something unsent. */
  lemma {:induction false} WhoIsSentAgain(tasks: map<string, Task>, ids: seq<string>, id: string)
    ensures id in RunningIds(tasks, ids) <==> id in ids && id in tasks && !tasks[id].closed && tasks[id].local.status == Running
    ensures id in UnsentIds(tasks, ids) <==> id in ids && id in tasks && tasks[id].dirty
  {
    if ids != [] {
      WhoIsSentAgain(tasks, ids[..|ids| - 1], id);
      assert ids == ids[..|ids| - 1] + [ids[|ids| - 1]];
    }
  }

  /** Two ids stand in `part` as they stand in `ids`. */
  ghost predicate IsPartOf(part: seq<string>, ids: seq<string>) {
    && (forall i :: 0 <= i < |part| ==> part[i] in ids)
    && (forall i, j :: 0 <= i < j < |part| ==> Before(ids, part[i], part[j]))
  }

  lemma {:induction false} PartGrows(part: seq<string>, ids: seq<string>, last: string, more: bool)
    requires IsPartOf(part, ids)
    ensures IsPartOf(if more then part + [last] else part, ids + [last])
  {
    var part', ids' := if more then part + [last] else part, ids + [last];
    forall i, j | 0 <= i < j < |part'| ensures Before(ids', part'[i], part'[j]) {
      if j < |part| {
        assert Before(ids, part[i], part[j]);
        var k, l :| 0 <= k < l < |ids| && ids[k] == part[i] && ids[l] == part[j];
        assert ids'[k] == part[i] && ids'[l] == part[j];
      } else {
        var k :| 0 <= k < |ids| && ids[k] == part[i];
        assert ids'[k] == part[i] && ids'[|ids|] == last;
      }
    }
  }

  /** They are sent in the order of their start, each once. */
  lemma {:induction false} SentInOrder(tasks: map<string, Task>, ids: seq<string>)
    requires NoRepetition(ids)
    ensures IsPartOf(RunningIds(tasks, ids), ids) && IsPartOf(UnsentIds(tasks, ids), ids)
  {
    if ids != [] {
      var before, last := ids[..|ids| - 1], ids[|ids| - 1];
      SentInOrder(tasks, before);
      PartGrows(RunningIds(tasks, before), before, last, last in tasks && IsRunning(tasks[last]));
      PartGrows(UnsentIds(tasks, before), before, last, last in tasks && tasks[last].dirty);
      assert ids == before + [last];
      assert RunningIds(tasks, before) + [] == RunningIds(tasks, before);
      assert UnsentIds(tasks, before) + [] == UnsentIds(tasks, before);
    }
  }

  /** One snapshot of every running task, in order, and each agrees with the local state of its task. */
  predicate IsHeartbeat(sent: seq<Snapshot>, tasks: map<string, Task>, ids: seq<string>) {
    && |sent| == |RunningIds(tasks, ids)|
    && forall k :: 0 <= k < |sent| ==> IsBeat(sent[k], tasks, RunningIds(tasks, ids)[k])
  }

  predicate IsBeat(s: Snapshot, tasks: map<string, Task>, id: string) { s.id == id && id in tasks && Agrees(s, tasks[id].local) }

  /** What a heartbeat sends for one task. */
  predicate IsNextBeat(more: seq<Snapshot>, tasks: map<string, Task>, id: string) {
    id in tasks && if IsRunning(tasks[id]) then |more| == 1 && IsBeat(more[0], tasks, id) else more == []
  }

  /** What was sent since `before` is one heartbeat of these tasks. */
  predicate HasBeaten(before: seq<Snapshot>, emitted: seq<Snapshot>, tasks: map<string, Task>, ids: seq<string>) {
    before <= emitted && IsHeartbeat(emitted[|before|..], tasks, ids)
  }

  lemma {:induction false} OneMoreBeat(before: seq<Snapshot>, emitted: seq<Snapshot>, more: seq<Snapshot>, tasks: map<string, Task>,
                                       ids: seq<string>, n: nat)
    requires n < |ids| && HasBeaten(before, emitted, tasks, ids[..n]) && IsNextBeat(more, tasks, ids[n])
    ensures HasBeaten(before, emitted + more, tasks, ids[..n + 1])
  {
    assert ids[..n + 1][..n] == ids[..n] && ids[..n + 1][n] == ids[n];
    assert IsRunning(tasks[ids[n]]) ==> RunningIds(tasks, ids[..n + 1]) == RunningIds(tasks, ids[..n]) + [ids[n]];
    assert (emitted + more)[|before|..] == emitted[|before|..] + more;
  }

  /** The ids of the tasks with something unsent, in order. */
  function UnsentIds(tasks: map<string, Task>, ids: seq<string>): seq<string> {
    if ids == [] then []
    else
      var last := ids[|ids| - 1];
      UnsentIds(tasks, ids[..|ids| - 1]) + if last in tasks && tasks[last].dirty then [last] else []
  }

  function IdsOf(sent: seq<Snapshot>): seq<string> { seq(|sent|, i requires 0 <= i < |sent| => sent[i].id) }

  /** What was sent since `before` is one snapshot of each of these tasks with something unsent, in order. */
  predicate HasToldRest(before: seq<Snapshot>, emitted: seq<Snapshot>, tasks: map<string, Task>, ids: seq<string>) {
    before <= emitted && IdsOf(emitted[|before|..]) == UnsentIds(tasks, ids)
  }

  /** One more task is closed, and told about if it has something unsent. */
  lemma {:induction false} OneMoreClosed(before: seq<Snapshot>, emitted: seq<Snapshot>, start: map<string, Task>, tasks: map<string, Task>,
                                         task: Task, ids: seq<string>, n: nat)
    requires NoRepetition(ids) && n < |ids| && Quiet(task) && task.last.id == ids[n]
    requires AreQuiet(start, tasks, ids, n) && HasToldRest(before, emitted, start, ids[..n])
    ensures AreQuiet(start, tasks[ids[n] := task], ids, n + 1)
    ensures ids[n] in tasks
    ensures HasToldRest(before, emitted + if tasks[ids[n]].dirty then [task.last] else [], start, ids[..n + 1])
  {
    var more := if tasks[ids[n]].dirty then [task.last] else [];
    assert ids[..n + 1][..n] == ids[..n] && ids[..n + 1][n] == ids[n];
    assert (emitted + more)[|before|..] == emitted[|before|..] + more;
  }

  /** Sending changes no task but for what was said last. */
  ghost predicate SameLocals(a: JsMap<string, Task>, b: JsMap<string, Task>) {
    && a.order == b.order && a.vals.Keys == b.vals.Keys
    && forall id :: id in a.vals ==> b.vals[id].local == a.vals[id].local && b.vals[id].closed == a.vals[id].closed
  }

  lemma {:induction false} ResendingChangesNoLocals(a: JsMap<string, Task>, b: JsMap<string, Task>, id: string, last: Snapshot)
    requires SameLocals(a, b) && id in b.vals
    ensures SameLocals(a, Put(b, id, b.vals[id].(dirty := false, last := last)))
  {
  }

  class Reporter {
    const throttleMs: int
    var tasks: JsMap<string, Task>
    var seqNo: nat
    ghost var emitted: seq<Snapshot>

    /** Sequence numbers go up by one, and a terminal snapshot is the last one of its task. */
    ghost predicate InSequence()
      reads this
    {
      && |emitted| == seqNo
      && (forall i :: 0 <= i < |emitted| ==> emitted[i].seqNo == i + 1)
      && TerminalIsLast(emitted)
    }

    /** An unfinished task either has said everything, or has an open window in which it will. */
    ghost predicate Told(t: Task) {
      && (t.closed <==> Terminal(t.last.state.status)) && (t.closed ==> !t.dirty)
      && (!t.closed ==> !Terminal(t.local.status) && (t.dirty ==> t.timer) && (!t.dirty ==> Agrees(t.last, t.local)))
    }

    ghost predicate Valid()
      reads this
    {
      && Ordered.Valid(tasks) && InSequence()
      && (forall i :: 0 <= i < |emitted| ==> emitted[i].id in tasks.vals)
      && (forall id :: id in tasks.vals ==> IsLast(emitted, id, tasks.vals[id].last) && Told(tasks.vals[id]))
    }

    constructor (throttleMs: int)
      ensures Valid() && emitted == [] && this.throttleMs == throttleMs
    {
      this.throttleMs := throttleMs;
      tasks, seqNo, emitted := Empty(), 0, [];
    }

    /** The snapshot of a local state: a gauge fills the gaps, and meta goes when the packet would be too large. */
    function SnapshotOf(id: string, local: State, reading: Reading, n: nat): (s: Snapshot)
      ensures s.id == id && s.seqNo == n && Agrees(s, local) && Reads(s, local, reading)
    {
      var measure := if reading.gauge.Some? then Merge(local.measure, reading.gauge.value) else local.measure;
      var s := Snapshot(id, local.(measure := measure), n);
      if s.state.meta.Some? && reading.tooLarge then s.(state := s.state.(meta := None)) else s
    }

    /** Everything is in order, except that the entry of task `id` does not yet mention its last snapshot `s`. */
    ghost predicate Unrecorded(id: string, s: Snapshot)
      reads this
    {
      && Ordered.Valid(tasks) && InSequence() && IsLast(emitted, id, s)
      && (forall i :: 0 <= i < |emitted| ==> emitted[i].id in tasks.vals || emitted[i].id == id)
      && (forall other :: other in tasks.vals && other != id ==> IsLast(emitted, other, tasks.vals[other].last) && Told(tasks.vals[other]))
    }

    /** Sends the snapshot of a task that is new or unfinished. */
    method Emit(id: string, task: Task, reading: Reading)
      requires Valid()
      requires id in tasks.vals ==> !tasks.vals[id].closed
      requires task.closed <==> Terminal(task.local.status)
      modifies this
      ensures Valid() && id in tasks.vals
      ensures tasks == Put(old(tasks), id, task.(dirty := false, last := tasks.vals[id].last))
      ensures emitted == old(emitted) + [tasks.vals[id].last]
      ensures tasks.vals[id].last.id == id && Agrees(tasks.vals[id].last, task.local)
      ensures Reads(tasks.vals[id].last, task.local, reading)
    {
      var s := SnapshotOf(id, task.local, reading, seqNo + 1);
      Dispatch(id, s);
      Record(id, task.(dirty := false, last := s));
    }

    method Record(id: string, task: Task)
      requires Unrecorded(id, task.last) && Told(task)
      modifies `tasks
      ensures Valid() && tasks == Put(old(tasks), id, task)
    {
      PutIsValid(tasks, id, task);
      tasks := Put(tasks, id, task);
    }

    /** Hands a snapshot to the sink. */
    method Dispatch(id: string, s: Snapshot)
      requires Valid() && s.seqNo == seqNo + 1 && s.id == id
      requires id in tasks.vals ==> !tasks.vals[id].closed
      modifies `emitted, `seqNo
      ensures Unrecorded(id, s) && emitted == old(emitted) + [s]
    {
      if id in tasks.vals {
        assert Told(tasks.vals[id]);
        OneMoreSnapshot(emitted, s, tasks.vals[id].last);
      }
      forall other | other in tasks.vals && other != id ensures IsLast(emitted + [s], other, tasks.vals[other].last) {
        StaysLast(emitted, s, other, tasks.vals[other].last);
      }
      seqNo := seqNo + 1;
      emitted := emitted + [s];
      assert emitted[|emitted| - 1] == s;
    }

    // ---- the operations of a task ------------------------------------------------------------------

    method Start(id: string, initial: Measure, meta: Option<string>, reading: Reading)
      requires Valid()
      modifies this
      ensures Valid() && id in tasks.vals && old(emitted) <= emitted
      ensures id in old(tasks).vals ==> tasks == old(tasks) && emitted == old(emitted)
      ensures id !in old(tasks).vals ==>
                var task := tasks.vals[id];
                && tasks == Put(old(tasks), id, task) && task.local == State(Pending, initial, None, meta)
                && !task.timer && !task.closed && Reads(task.last, task.local, reading) && emitted == old(emitted) + [task.last]
    {
      if id in tasks.vals {
        return;
      }
      var local := State(Pending, initial, None, meta);
      Emit(id, Task(local, Snapshot(id, local, 0), false, false, false), reading);
    }

    /** Applies a patch; it is sent now, or by the window that is open. */
    method Update(id: string, patch: Patch, reading: Reading)
      requires Valid() && id in tasks.vals
      modifies this
      ensures Valid() && id in tasks.vals && old(emitted) <= emitted
      ensures old(tasks.vals[id]).closed ==> tasks == old(tasks) && emitted == old(emitted)
      ensures !old(tasks.vals[id]).closed ==>
                var was, task := old(tasks.vals[id]), tasks.vals[id];
                && tasks == Put(old(tasks), id, task) && !task.closed
                && task.local == Patched(was.local, patch) && IsPatched(was.local, patch, task.local)
                && task.timer == (throttleMs > 0 || was.timer)
                && (throttleMs > 0 && was.timer ==> task.dirty && task.last == was.last && emitted == old(emitted))
                && (throttleMs <= 0 || !was.timer ==>
                      !task.dirty && emitted == old(emitted) + [task.last] && Reads(task.last, task.local, reading)
                      && Agrees(task.last, task.local))
    {
      var task := tasks.vals[id];
      if task.closed {
        return;
      }
      assert Told(task);
      task := task.(local := Patched(task.local, patch));
      if throttleMs <= 0 {
        Emit(id, task, reading);
      } else if task.timer {
        Change(id, task.(dirty := true));
      } else {
        Emit(id, task.(timer := true), reading);
      }
    }

    /** Changes the entry of a task without sending anything. */
    method Change(id: string, task: Task)
      requires Valid() && id in tasks.vals && task.last == tasks.vals[id].last && Told(task)
      modifies `tasks
      ensures Valid() && tasks == Put(old(tasks), id, task)
    {
      PutIsValid(tasks, id, task);
      tasks := Put(tasks, id, task);
    }

    /** The window of a task ends: what changed in it is sent, and a new window opens. */
    method WindowEnds(id: string, reading: Reading)
      requires Valid() && id in tasks.vals && tasks.vals[id].timer
      modifies this
      ensures Valid() && id in tasks.vals && tasks.vals[id].local == old(tasks.vals[id]).local
      ensures !old(tasks.vals[id]).dirty ==> emitted == old(emitted) && !tasks.vals[id].timer
      ensures old(tasks.vals[id]).dirty ==>
                && tasks.vals[id].timer && !tasks.vals[id].dirty
                && emitted == old(emitted) + [tasks.vals[id].last] && Agrees(tasks.vals[id].last, tasks.vals[id].local)
                && Reads(tasks.vals[id].last, tasks.vals[id].local, reading)
      ensures tasks == Put(old(tasks), id, tasks.vals[id])
    {
      var task := tasks.vals[id];
      assert Told(task);
      if !task.dirty || task.closed {
        Change(id, task.(timer := false));
      } else {
        Emit(id, task, reading);
      }
    }

    /** The final state: what the call gives takes the place of what was there, and nothing else is lost. */
    static predicate IsFinished(before: State, after: State, status: Status, error: Option<string>, caption: Option<string>,
                                meta: Option<string>)
    {
      && after.status == status && TakesMeasure(before.measure, NO_MEASURE.(caption := caption), after.measure)
      && Takes(before.error, error, after.error) && Takes(before.meta, meta, after.meta)
    }

    /** The terminal snapshot; nothing is sent for the task after it. */
    method Finish(id: string, status: Status, error: Option<string>, caption: Option<string>, meta: Option<string>, reading: Reading)
      requires Valid() && id in tasks.vals && Terminal(status)
      modifies this
      ensures Valid() && old(emitted) <= emitted && id in tasks.vals && tasks.vals[id].closed
      ensures tasks == Put(old(tasks), id, tasks.vals[id])
      ensures old(tasks.vals[id]).closed ==>
                var was, task := old(tasks.vals[id]), tasks.vals[id];
                && emitted == old(emitted) && task.last == was.last
                && task.local == was.local.(error := task.local.error) && Takes(was.local.error, error, task.local.error)
      ensures !old(tasks.vals[id]).closed ==>
                && emitted == old(emitted) + [tasks.vals[id].last] && Agrees(tasks.vals[id].last, tasks.vals[id].local)
                && Reads(tasks.vals[id].last, tasks.vals[id].local, reading) && !tasks.vals[id].timer
                && IsFinished(old(tasks.vals[id]).local, tasks.vals[id].local, status, error, caption, meta)
    {
      var task := tasks.vals[id];
      assert Told(task);
      if task.closed {
        Change(id, task.(local := task.local.(error := Or(error, task.local.error))));
        return;
      }
      var measure := Merge(NO_MEASURE.(caption := caption), task.local.measure);
      var local := State(status, measure, Or(error, task.local.error), Or(meta, task.local.meta));
      Emit(id, task.(local := local, timer := false, closed := true), reading);
    }

    /** A task is sent again, if it runs. */
    method Beat(id: string, reading: Reading, ghost start: JsMap<string, Task>) returns (ghost more: seq<Snapshot>)
      requires Valid() && id in tasks.vals && SameLocals(start, tasks)
      modifies this
      ensures Valid() && SameLocals(start, tasks)
      ensures emitted == old(emitted) + more && IsNextBeat(more, start.vals, id)
    {
      var task := tasks.vals[id];
      assert Told(task);
      more := [];
      if !task.closed && task.local.status.Running? {
        Emit(id, task, reading);
        more := [tasks.vals[id].last];
        ResendingChangesNoLocals(start, old(tasks), id, tasks.vals[id].last);
      }
    }

    /** Running tasks are sent again, each once and as it stands, in order of their start. */
    method Heartbeat(readings: map<string, Reading>)
      requires Valid()
      modifies this
      ensures Valid() && SameLocals(old(tasks), tasks)
      ensures HasBeaten(old(emitted), emitted, old(tasks.vals), old(tasks.order))
    {
      ghost var before, start := emitted, tasks;
      var ids := tasks.order;
      assert emitted[|emitted|..] == [];
      for i := 0 to |ids|
        invariant Valid() && SameLocals(start, tasks)
        invariant HasBeaten(before, emitted, start.vals, ids[..i])
      {
        ghost var sent := emitted;
        ghost var more := Beat(ids[i], ReadingOf(readings, ids[i]), start);
        OneMoreBeat(before, sent, more, start.vals, ids, i);
      }
      assert ids[..|ids|] == ids;
    }

    method CloseTask(id: string, reading: Reading)
      requires Valid() && id in tasks.vals
      modifies this
      ensures Valid() && old(emitted) <= emitted && tasks.order == old(tasks).order
      ensures id in tasks.vals && tasks.vals == old(tasks).vals[id := tasks.vals[id]] && Quiet(tasks.vals[id])
      ensures emitted == old(emitted) + if old(tasks.vals[id]).dirty then [tasks.vals[id].last] else []
      ensures tasks.vals[id].last.id == id
    {
      var task := tasks.vals[id].(timer := false);
      assert Told(tasks.vals[id]);
      if task.dirty && !task.closed {
        Emit(id, task, reading);
      } else {
        Change(id, task);
      }
    }

    method CloseTasks(readings: map<string, Reading>)
      requires Valid()
      modifies this
      ensures Valid() && AreQuiet(old(tasks.vals), tasks.vals, tasks.order, |tasks.order|)
      ensures HasToldRest(old(emitted), emitted, old(tasks.vals), old(tasks.order))
    {
      ghost var first, start := emitted, tasks.vals;
      var ids := tasks.order;
      assert emitted[|emitted|..] == [];
      for i := 0 to |ids|
        invariant Valid() && tasks.order == ids
        invariant AreQuiet(start, tasks.vals, ids, i) && HasToldRest(first, emitted, start, ids[..i])
      {
        ghost var before, sent := tasks.vals, emitted;
        CloseTask(ids[i], ReadingOf(readings, ids[i]));
        OneMoreClosed(first, sent, start, before, tasks.vals[ids[i]], ids, i);
      }
      assert ids[..|ids|] == ids;
    }

    /** Closing sends what the windows still held, each task once, and nothing else: the last snapshot of every unfinished task agrees with its local state. */
    method Close(readings: map<string, Reading>)
      requires Valid()
      modifies this
      ensures Valid() && HasToldRest(old(emitted), emitted, old(tasks.vals), old(tasks.order))
      ensures forall id :: id in tasks.vals ==> !tasks.vals[id].timer
      ensures forall id :: id in tasks.vals && !tasks.vals[id].closed ==>
                Agrees(tasks.vals[id].last, tasks.vals[id].local) && IsLast(emitted, id, tasks.vals[id].last)
    {
      ghost var start := tasks.vals;
      CloseTasks(readings);
      QuietTasksHaveTold(start);
    }

    lemma {:induction false} QuietTasksHaveTold(start: map<string, Task>)
      requires Valid() && AreQuiet(start, tasks.vals, tasks.order, |tasks.order|)
      ensures forall id :: id in tasks.vals ==> !tasks.vals[id].timer
      ensures forall id :: id in tasks.vals && !tasks.vals[id].closed ==>
                Agrees(tasks.vals[id].last, tasks.vals[id].local) && IsLast(emitted, id, tasks.vals[id].last)
    {
      forall id | id in tasks.vals
        ensures !tasks.vals[id].timer && (!tasks.vals[id].closed ==> Agrees(tasks.vals[id].last, tasks.vals[id].local))
      {
        assert id in tasks.order && Told(tasks.vals[id]);
      }
    }
  }
}
