/** No update is missed: what a server still holds, up to the watermark, is in the replica. */
module SyncSafety {
  import opened Outcomes
  import opened Sync

  // ---- the server --------------------------------------------------------------------------------

  /** `records` holds the latest version of every id, tombstones included; `history` every version there ever was. */
  datatype Server = Server(records: map<Id, Model>, history: set<Model>, top: int)

  predicate IsRecord(m: Model) { m.id.Some? && m.version.Some? && m.version.value > 0 }

  /** Versions are positive, later changes have greater ones, and the record of an id is its latest version. */
  ghost predicate Genuine(s: Server) {
    && s.top >= 0
    && (forall id :: id in s.records ==> s.records[id] in s.history && s.records[id].id == Some(id))
    && (forall m :: m in s.history ==> IsRecord(m) && m.version.value <= s.top && IsSuperseded(s, m))
  }

  predicate IsSuperseded(s: Server, m: Model)
    requires IsRecord(m)
  {
    && m.id.value in s.records && IsRecord(s.records[m.id.value])
    && (m == s.records[m.id.value] || m.version.value < s.records[m.id.value].version.value)
  }

  predicate Live(s: Server, id: Id) { id in s.records && !s.records[id].deleted }

  function Change(s: Server, m: Model): Server
    requires IsRecord(m)
  {
    Server(s.records[m.id.value := m], s.history + {m}, m.version.value)
  }

  lemma {:induction false} ChangeIsGenuine(s: Server, m: Model)
    requires Genuine(s) && IsRecord(m) && m.version.value > s.top
    ensures Genuine(Change(s, m))
  {
    var s' := Change(s, m);
    forall x | x in s'.history ensures IsRecord(x) && x.version.value <= s'.top && IsSuperseded(s', x) {
      assert x in s.history ==> IsSuperseded(s, x);
    }
  }

  // ---- applying genuine models -------------------------------------------------------------------

  /** Everything in the store was a live version of its id. */
  ghost predicate Honest(store: Store, s: Server) {
    forall id :: id in store ==> store[id] in s.history && store[id].id == Some(id) && !store[id].deleted
  }

  predicate Current(store: Store, s: Server, id: Id) { id in store && id in s.records && store[id] == s.records[id] }

  lemma {:induction false} ApplyKeeps(store: Store, m: Model, s: Server)
    requires Genuine(s) && Honest(store, s) && m in s.history
    ensures Honest(Apply(store, m).0, s)
    ensures forall id :: Live(s, id) && Current(store, s, id) ==> Current(Apply(store, m).0, s, id)
    ensures forall id :: Live(s, id) && m == s.records[id] ==> Current(Apply(store, m).0, s, id)
  {
    assert IsSuperseded(s, m);
    forall id | Live(s, id) && m == s.records[id] ensures Current(Apply(store, m).0, s, id) {
      if id in store {
        assert IsSuperseded(s, store[id]);
      }
    }
  }

  /** Genuine models, in any order and however stale, never push a current model out, and bring in those that are current. */
  lemma {:induction false} ApplyAllKeeps(store: Store, models: seq<Model>, s: Server)
    requires Genuine(s) && Honest(store, s) && forall i :: 0 <= i < |models| ==> models[i] in s.history
    ensures Honest(ApplyAll(store, models).0, s)
    ensures forall id :: Live(s, id) && Current(store, s, id) ==> Current(ApplyAll(store, models).0, s, id)
    ensures forall id :: Live(s, id) && s.records[id] in models ==> Current(ApplyAll(store, models).0, s, id)
    ensures forall m :: m in ApplyAll(store, models).1 ==> m in models
  {
    if models != [] {
      var before, last := models[..|models| - 1], models[|models| - 1];
      ApplyAllKeeps(store, before, s);
      ApplyKeeps(ApplyAll(store, before).0, last, s);
      assert models == before + [last];
    }
  }

  // ---- server, replica and the pull in flight ------------------------------------------------------

  /** The answer to a pull: the records newer than `since`, in order of version; `done` of them have arrived. */
  datatype Pull = Pull(since: int, upTo: int, batch: seq<Model>, done: nat)

  datatype System = System(server: Server, replica: Replica, pull: Option<Pull>)

  datatype Step =
    | ServerChanges(model: Model)
    | EventArrives(models: seq<Model>)
    | PullBegins(batch: seq<Model>)
    | PageArrives(count: nat, more: bool)
    | PageFails

  ghost predicate Increasing(batch: seq<Model>) {
    forall i, j :: 0 <= i < j < |batch| ==> VersionOf(batch[i]) < VersionOf(batch[j])
  }

  /** One snapshot: every live record newer than `since` is in the batch (whether tombstones are is up to the server). */
  ghost predicate Answers(s: Server, since: int, batch: seq<Model>) {
    && Increasing(batch)
    && (forall i :: 0 <= i < |batch| ==> batch[i] in s.history)
    && (forall id :: Live(s, id) && VersionOf(s.records[id]) > since ==> s.records[id] in batch)
  }

  ghost predicate Possible(sys: System, step: Step) {
    match step
    case ServerChanges(m) => IsRecord(m) && m.version.value > sys.server.top
    case EventArrives(models) => forall i :: 0 <= i < |models| ==> models[i] in sys.server.history
    case PullBegins(batch) => sys.pull.None? && Answers(sys.server, sys.replica.watermark, batch)
    case PageArrives(n, more) =>
      && sys.pull.Some? && sys.pull.value.done + n <= |sys.pull.value.batch|
      && (!more ==> sys.pull.value.done + n == |sys.pull.value.batch|)
    case PageFails => sys.pull.Some?
  }

  /** The pull goes on after the next `n` records. */
  function AfterPage(sys: System, n: nat): System
    requires sys.pull.Some? && sys.pull.value.done + n <= |sys.pull.value.batch|
  {
    var p, done := sys.pull.value, sys.pull.value.done + n;
    sys.(replica := AcceptPage(sys.replica, p.batch[p.done..done]), pull := Some(p.(done := done)))
  }

  function Next(sys: System, step: Step): System {
    match step
    case ServerChanges(m) => if IsRecord(m) then sys.(server := Change(sys.server, m)) else sys
    case EventArrives(models) => sys.(replica := AcceptEvent(sys.replica, models))
    case PullBegins(batch) => sys.(pull := Some(Pull(sys.replica.watermark, sys.server.top, batch, 0)))
    case PageArrives(n, more) =>
      if sys.pull.None? || sys.pull.value.done + n > |sys.pull.value.batch| then sys
      else if more then AfterPage(sys, n)
      else AfterPage(sys, n).(pull := None)
    case PageFails => sys.(pull := None)
  }

  /** Every model that is live on the server with a version up to the watermark is in the store, at that version. */
  ghost predicate NothingMissed(sys: System) {
    forall id :: Live(sys.server, id) && VersionOf(sys.server.records[id]) <= sys.replica.watermark ==>
      Current(sys.replica.store, sys.server, id)
  }

  /** Record `m` of the batch, if it is still what the server holds live, is in the store. */
  predicate Arrived(sys: System, m: Model) {
    m.id.Some? && Live(sys.server, m.id.value) && sys.server.records[m.id.value] == m ==>
      Current(sys.replica.store, sys.server, m.id.value)
  }

  /** What the pull in flight has achieved. */
  ghost predicate PullGoesWell(sys: System, p: Pull) {
    && p.done <= |p.batch| && Increasing(p.batch) && p.upTo <= sys.server.top
    && (forall i :: 0 <= i < |p.batch| ==> p.batch[i] in sys.server.history && VersionOf(p.batch[i]) <= p.upTo)
    && (forall id :: Live(sys.server, id) && p.since < VersionOf(sys.server.records[id]) <= p.upTo ==> sys.server.records[id] in p.batch)
    && (forall i :: 0 <= i < p.done ==> Arrived(sys, p.batch[i]))
    && p.since <= sys.replica.watermark
    && (sys.replica.watermark == p.since || exists i :: 0 <= i < p.done && sys.replica.watermark <= VersionOf(p.batch[i]))
  }

  ghost predicate Inv(sys: System) {
    && Genuine(sys.server)
    && Honest(sys.replica.store, sys.server)
    && 0 <= sys.replica.watermark <= sys.server.top
    && NothingMissed(sys)
    && (sys.pull.Some? ==> PullGoesWell(sys, sys.pull.value))
  }

  ghost predicate Initial(sys: System) {
    sys == System(Server(map[], {}, 0), Replica(map[], 0), None)
  }

  lemma {:induction false} ServerChangesKeeps(sys: System, m: Model)
    requires Inv(sys) && IsRecord(m) && m.version.value > sys.server.top
    ensures Inv(sys.(server := Change(sys.server, m)))
  {
    ChangeIsGenuine(sys.server, m);
  }

  lemma {:induction false} EventKeeps(sys: System, models: seq<Model>)
    requires Inv(sys) && forall i :: 0 <= i < |models| ==> models[i] in sys.server.history
    ensures Inv(sys.(replica := AcceptEvent(sys.replica, models)))
  {
    ApplyAllKeeps(sys.replica.store, models, sys.server);
    var sys' := sys.(replica := AcceptEvent(sys.replica, models));
    if sys.pull.Some? {
      var p := sys.pull.value;
      forall i | 0 <= i < p.done ensures Arrived(sys', p.batch[i]) {
        assert Arrived(sys, p.batch[i]);
      }
    }
  }

  lemma {:induction false} RaisedFacts(watermark: int, applied: seq<Model>)
    ensures Raised(watermark, applied) >= watermark
    ensures Raised(watermark, applied) == watermark || exists i :: 0 <= i < |applied| && Raised(watermark, applied) == VersionOf(applied[i])
  {
    if applied != [] {
      RaisedFacts(watermark, applied[..|applied| - 1]);
    }
  }

  lemma {:induction false} PageArrived(sys: System, p: Pull, done: nat)
    requires Inv(sys) && sys.pull == Some(p) && p.done <= done <= |p.batch|
    ensures var r' := AcceptPage(sys.replica, p.batch[p.done..done]);
            && Honest(r'.store, sys.server)
            && (forall id :: Live(sys.server, id) && Current(sys.replica.store, sys.server, id) ==> Current(r'.store, sys.server, id))
            && (forall i :: 0 <= i < done ==> Arrived(sys.(replica := r'), p.batch[i]))
            && (forall m :: m in ApplyAll(sys.replica.store, p.batch[p.done..done]).1 ==> m in p.batch[p.done..done])
  {
    var page := p.batch[p.done..done];
    forall i | 0 <= i < |page| ensures page[i] in sys.server.history {
      assert page[i] == p.batch[p.done + i];
    }
    ApplyAllKeeps(sys.replica.store, page, sys.server);
    forall i | 0 <= i < done ensures Arrived(sys.(replica := AcceptPage(sys.replica, page)), p.batch[i]) {
      assert i < p.done ==> Arrived(sys, p.batch[i]);
      assert i >= p.done ==> page[i - p.done] == p.batch[i];
    }
  }

  /** A page: its records are now in the store, and the watermark has not passed the last of them. */
  lemma {:induction false} PageKeeps(sys: System, n: nat)
    requires Inv(sys) && sys.pull.Some? && sys.pull.value.done + n <= |sys.pull.value.batch|
    ensures Inv(AfterPage(sys, n))
  {
    var p, done := sys.pull.value, sys.pull.value.done + n;
    var p' := p.(done := done);
    var arrived := sys.(replica := AcceptPage(sys.replica, p.batch[p.done..done]));
    assert PullGoesWell(arrived, p') by { PageGoesWell(sys, p, done); }
    PageArrived(sys, p, done);
    ArrivedMeansNothingMissed(sys, arrived, p');
    ArrivedInEither(arrived, Some(p'));
    WatermarkIsBounded(sys, p, done);
  }

  lemma {:induction false} PageGoesWell(sys: System, p: Pull, done: nat)
    requires Inv(sys) && sys.pull == Some(p) && p.done <= done <= |p.batch|
    ensures PullGoesWell(sys.(replica := AcceptPage(sys.replica, p.batch[p.done..done])), p.(done := done))
  {
    PageArrived(sys, p, done);
    WatermarkStaysBehind(sys, p.batch[p.done..done], p.(done := done));
  }

  lemma {:induction false} WatermarkIsBounded(sys: System, p: Pull, done: nat)
    requires Inv(sys) && sys.pull == Some(p) && p.done <= done <= |p.batch|
    ensures sys.replica.watermark <= AcceptPage(sys.replica, p.batch[p.done..done]).watermark <= sys.server.top
  {
    PageArrived(sys, p, done);
    WatermarkStaysBehind(sys, p.batch[p.done..done], p.(done := done));
  }

  lemma {:induction false} ArrivedInEither(sys: System, pull: Option<Pull>)
    requires NothingMissed(sys)
    ensures NothingMissed(sys.(pull := pull))
    ensures forall p :: PullGoesWell(sys, p) ==> PullGoesWell(sys.(pull := pull), p)
  {
    forall p | PullGoesWell(sys, p) ensures PullGoesWell(sys.(pull := pull), p) {
      forall i | 0 <= i < p.done ensures Arrived(sys.(pull := pull), p.batch[i]) {
        assert Arrived(sys, p.batch[i]);
      }
    }
  }

  lemma {:induction false} WatermarkStaysBehind(sys: System, page: seq<Model>, p: Pull)
    requires Inv(sys) && sys.pull.Some? && sys.pull.value.(done := p.done) == p && sys.pull.value.done <= p.done <= |p.batch|
    requires page == p.batch[sys.pull.value.done..p.done]
    requires forall m :: m in ApplyAll(sys.replica.store, page).1 ==> m in page
    ensures var w := AcceptPage(sys.replica, page).watermark;
            && sys.replica.watermark <= w <= sys.server.top
            && (w == p.since || exists i :: 0 <= i < p.done && w <= VersionOf(p.batch[i]))
  {
    var applied := ApplyAll(sys.replica.store, page).1;
    var w := Raised(sys.replica.watermark, applied);
    RaisedFacts(sys.replica.watermark, applied);
    if w != sys.replica.watermark {
      var i :| 0 <= i < |applied| && w == VersionOf(applied[i]);
      assert applied[i] in page;
      var j :| 0 <= j < |page| && page[j] == applied[i];
      assert p.batch[sys.pull.value.done + j] == applied[i];
    }
  }

  /** What is live with a version up to the new watermark was either there before, or among the records that arrived. */
  lemma {:induction false} ArrivedMeansNothingMissed(sys: System, sys': System, p: Pull)
    requires Inv(sys) && sys'.server == sys.server && PullGoesWell(sys', p) && p.since <= sys.replica.watermark
    requires forall id :: Live(sys.server, id) && Current(sys.replica.store, sys.server, id) ==> Current(sys'.replica.store, sys.server, id)
    ensures NothingMissed(sys')
  {
    forall id | Live(sys.server, id) && VersionOf(sys.server.records[id]) <= sys'.replica.watermark
      ensures Current(sys'.replica.store, sys.server, id)
    {
      var m := sys.server.records[id];
      if VersionOf(m) > sys.replica.watermark {
        var k :| 0 <= k < p.done && sys'.replica.watermark <= VersionOf(p.batch[k]);
        var j :| 0 <= j < |p.batch| && p.batch[j] == m;
        assert j <= k;
        assert Arrived(sys', p.batch[j]);
      }
    }
  }

  lemma {:induction false} PullBeginsKeeps(sys: System, batch: seq<Model>)
    requires Inv(sys) && sys.pull.None? && Answers(sys.server, sys.replica.watermark, batch)
    ensures Inv(Next(sys, PullBegins(batch)))
  {
    forall i | 0 <= i < |batch| ensures VersionOf(batch[i]) <= sys.server.top {
      assert batch[i] in sys.server.history;
    }
    forall id | Live(sys.server, id) ensures VersionOf(sys.server.records[id]) <= sys.server.top {
      assert sys.server.records[id] in sys.server.history;
    }
  }

  lemma {:induction false} EndedPullKeeps(sys: System)
    requires Inv(sys)
    ensures Inv(sys.(pull := None))
  {
    assert NothingMissed(sys.(pull := None)) by { ArrivedInEither(sys, None); }
  }

  lemma {:induction false} PageArrivesKeeps(sys: System, n: nat, more: bool)
    requires Inv(sys) && Possible(sys, PageArrives(n, more))
    ensures Inv(Next(sys, PageArrives(n, more)))
  {
    PageKeeps(sys, n);
    if more {
      assert Next(sys, PageArrives(n, more)) == AfterPage(sys, n);
    } else {
      EndedPullKeeps(AfterPage(sys, n));
    }
  }

  lemma {:induction false} NextKeeps(sys: System, step: Step)
    requires Inv(sys) && Possible(sys, step)
    ensures Inv(Next(sys, step))
  {
    match step
    case ServerChanges(m) => ServerChangesKeeps(sys, m);
    case EventArrives(models) => EventKeeps(sys, models);
    case PullBegins(batch) => PullBeginsKeeps(sys, batch);
    case PageArrives(n, more) => PageArrivesKeeps(sys, n, more);
    case PageFails =>
  }

  ghost predicate IsRun(states: seq<System>, steps: seq<Step>) {
    && |states| == |steps| + 1 && Initial(states[0])
    && forall i :: 0 <= i < |steps| ==> Possible(states[i], steps[i]) && states[i + 1] == Next(states[i], steps[i])
  }

  lemma {:induction false} RunKeeps(states: seq<System>, steps: seq<Step>, i: nat)
    requires IsRun(states, steps) && i < |states|
    ensures Inv(states[i])
  {
    if i > 0 {
      RunKeeps(states, steps, i - 1);
      NextKeeps(states[i - 1], steps[i - 1]);
    }
  }

  /** After any mix of server changes, pulls, failing pages and genuine events, however late or repeated: every model
      that is live on the server with a version up to the watermark is in the store, exactly as the server holds it. */
  lemma {:induction false} NoUpdateIsMissed(states: seq<System>, steps: seq<Step>, i: nat, id: Id)
    requires IsRun(states, steps) && i < |states|
    requires Live(states[i].server, id) && VersionOf(states[i].server.records[id]) <= states[i].replica.watermark
    ensures id in states[i].replica.store && states[i].replica.store[id] == states[i].server.records[id]
  {
    RunKeeps(states, steps, i);
  }

  /** When the last page of a pull has arrived, everything live on the server that has not changed since the snapshot is in the store. */
  lemma {:induction false} CompletedPullCatchesUp(sys: System, n: nat, id: Id)
    requires Inv(sys) && Possible(sys, PageArrives(n, false))
    requires Live(sys.server, id) && VersionOf(sys.server.records[id]) <= sys.pull.value.upTo
    ensures Current(Next(sys, PageArrives(n, false)).replica.store, sys.server, id)
  {
    PageKeeps(sys, n);
    var p := sys.pull.value;
    var m := sys.server.records[id];
    var sys' := AfterPage(sys, n);
    if VersionOf(m) > p.since {
      var j :| 0 <= j < |p.batch| && p.batch[j] == m;
      assert Arrived(sys', p.batch[j]);
    }
  }

  // ---- what counts as applied ----------------------------------------------------------------------

  /** A model is applied if and only if the store is another one afterwards. */
  lemma {:induction false} AppliedMeansChanged(store: Store, m: Model)
    ensures Apply(store, m).1 <==> Apply(store, m).0 != store
  {
    if Apply(store, m).1 {
      var id, after := m.id.value, Apply(store, m).0;
      assert id in store <==> id in store.Keys;
      assert if m.deleted then id in store && id !in after else after[id] == m && (id in store ==> store[id] != m);
    }
  }

  /** The store changed at the turn of model `i`. */
  predicate ChangesAt(store: Store, models: seq<Model>, i: nat)
    requires i < |models|
  {
    ApplyAll(store, models[..i + 1]).0 != ApplyAll(store, models[..i]).0
  }

  /** The models, of the first `n`, at whose turn the store changed. */
  function Changing(store: Store, models: seq<Model>, n: nat): seq<Model>
    requires n <= |models|
  {
    if n == 0 then [] else Changing(store, models, n - 1) + if ChangesAt(store, models, n - 1) then [models[n - 1]] else []
  }

  /** The list of applied models is the list of those that changed the store, each at its turn. */
  lemma {:induction false} AppliedAreTheChanging(store: Store, models: seq<Model>, n: nat)
    requires n <= |models|
    ensures ApplyAll(store, models[..n]).1 == Changing(store, models, n)
  {
    if n > 0 {
      assert models[..n][..n - 1] == models[..n - 1] && models[..n][n - 1] == models[n - 1];
      AppliedAreTheChanging(store, models, n - 1);
      AppliedMeansChanged(ApplyAll(store, models[..n - 1]).0, models[n - 1]);
    }
  }

  /** `w` is the greatest of the old watermark and the versions of these models. */
  ghost predicate IsHighest(w: int, before: int, models: seq<Model>) {
    && w >= before && (forall i :: 0 <= i < |models| ==> VersionOf(models[i]) <= w)
    && (w == before || exists i :: 0 <= i < |models| && VersionOf(models[i]) == w)
  }

  lemma {:induction false} RaisedIsHighest(watermark: int, applied: seq<Model>)
    ensures IsHighest(Raised(watermark, applied), watermark, applied)
  {
    if applied != [] {
      var before := applied[..|applied| - 1];
      RaisedIsHighest(watermark, before);
      if Raised(watermark, applied) != watermark && Raised(watermark, applied) == Raised(watermark, before) {
        var i :| 0 <= i < |before| && VersionOf(before[i]) == Raised(watermark, before);
        assert applied[i] == before[i];
      }
    }
  }

  /** After a page the watermark is the greatest of the old one and the versions of the models that changed the store. */
  lemma {:induction false} WatermarkFollowsChanges(r: Replica, models: seq<Model>)
    ensures IsHighest(AcceptPage(r, models).watermark, r.watermark, Changing(r.store, models, |models|))
  {
    assert models[..|models|] == models;
    AppliedAreTheChanging(r.store, models, |models|);
    RaisedIsHighest(r.watermark, ApplyAll(r.store, models).1);
  }

  // ---- when the order of application does not matter ---------------------------------------------

  function Elements(models: seq<Model>): set<Model> { set m | m in models }

  /** Models with an id and a version, where id and version fix the content. */
  ghost predicate Dated(models: set<Model>) {
    && (forall m :: m in models ==> m.id.Some? && m.version.Some?)
    && (forall m, n :: m in models && n in models && m.id == n.id && m.version == n.version ==> m == n)
  }

  /** Every order of application, with any repetitions, gives the same store. */
  ghost predicate OrderFree(models: set<Model>) {
    forall a, b :: Elements(a) == models && Elements(b) == models ==> ApplyAll(map[], a).0 == ApplyAll(map[], b).0
  }

  /** `m` has a later live model of the same id among the models. */
  ghost predicate IsOutlived(models: set<Model>, m: Model) {
    exists n :: n in models && !n.deleted && n.id == m.id && VersionOf(n) > VersionOf(m)
  }

  /** A tombstone whose id has a live model has a later one. */
  ghost predicate TombstonesAreOutlived(models: set<Model>) {
    forall d, l :: d in models && l in models && d.deleted && !l.deleted && l.id == d.id ==> IsOutlived(models, d)
  }

  /** `g` is live and later than every other model of its id. */
  ghost predicate IsTop(models: set<Model>, g: Model) {
    && g in models && g.id.Some? && g.version.Some? && !g.deleted
    && forall m :: m in models && m.id == g.id ==> m == g || VersionOf(m) < VersionOf(g)
  }

  lemma {:induction false} TopExists(models: set<Model>, l: Model, among: set<Model>) returns (g: Model)
    requires Dated(models) && TombstonesAreOutlived(models) && among <= models
    requires l in models && !l.deleted
    requires forall m :: m in models && m.id == l.id && m !in among ==> VersionOf(m) <= VersionOf(l)
    ensures IsTop(models, g) && g.id == l.id
    decreases among
  {
    if m :| m in among && m.id == l.id && !m.deleted && VersionOf(m) > VersionOf(l) {
      g := TopExists(models, m, among - {m, l});
    } else {
      g := l;
      forall m | m in models && m.id == g.id ensures m == g || VersionOf(m) < VersionOf(g) {
        if m.deleted {
          assert IsOutlived(models, m);
        }
      }
    }
  }

  /** The store holds live models only; those applied that are later than all others of their id are in it. */
  ghost predicate HoldsTops(store: Store, models: set<Model>, applied: seq<Model>) {
    && (forall id :: id in store ==> store[id] in models && store[id].id == Some(id) && !store[id].deleted)
    && (forall g :: g in applied && IsTop(models, g) ==> Holds(store, g))
  }

  predicate Holds(store: Store, m: Model) { m.id.Some? && m.id.value in store && store[m.id.value] == m }

  lemma {:induction false} ApplyHoldsTops(store: Store, models: set<Model>, applied: seq<Model>, m: Model)
    requires Dated(models) && m in models && HoldsTops(store, models, applied)
    ensures HoldsTops(Apply(store, m).0, models, applied + [m])
  {
    var store' := Apply(store, m).0;
    forall g | g in applied + [m] && IsTop(models, g) ensures Holds(store', g) {
      assert g in applied ==> Holds(store, g);
      if g.id.value in store {
        assert store[g.id.value] in models;
      }
    }
  }

  lemma {:induction false} ApplyAllHoldsTops(models: set<Model>, applied: seq<Model>)
    requires Dated(models) && Elements(applied) <= models
    ensures HoldsTops(ApplyAll(map[], applied).0, models, applied)
  {
    if applied != [] {
      var before, last := applied[..|applied| - 1], applied[|applied| - 1];
      assert applied == before + [last];
      assert last in Elements(applied) && Elements(before) <= Elements(applied);
      ApplyAllHoldsTops(models, before);
      ApplyHoldsTops(ApplyAll(map[], before).0, models, before, last);
    }
  }

  /** What one enumeration leaves in the store, every other one leaves there. */
  lemma {:induction false} SameTops(models: set<Model>, a: seq<Model>, b: seq<Model>, id: Id)
    requires Dated(models) && TombstonesAreOutlived(models) && Elements(a) == models && Elements(b) == models
    requires id in ApplyAll(map[], a).0
    ensures id in ApplyAll(map[], b).0 && ApplyAll(map[], b).0[id] == ApplyAll(map[], a).0[id]
  {
    var x, y := ApplyAll(map[], a).0, ApplyAll(map[], b).0;
    ApplyAllHoldsTops(models, a);
    ApplyAllHoldsTops(models, b);
    var g := TopExists(models, x[id], models);
    assert g in Elements(a) && g in Elements(b);
    assert Holds(x, g) && Holds(y, g);
  }

  lemma {:induction false} OutlivedIsFree(models: set<Model>)
    requires Dated(models) && TombstonesAreOutlived(models)
    ensures OrderFree(models)
  {
    forall a, b | Elements(a) == models && Elements(b) == models
      ensures ApplyAll(map[], a).0 == ApplyAll(map[], b).0
    {
      SameStores(models, a, b);
    }
  }

  lemma {:induction false} SameStores(models: set<Model>, a: seq<Model>, b: seq<Model>)
    requires Dated(models) && TombstonesAreOutlived(models) && Elements(a) == models && Elements(b) == models
    ensures ApplyAll(map[], a).0 == ApplyAll(map[], b).0
  {
    var x, y := ApplyAll(map[], a).0, ApplyAll(map[], b).0;
    forall id | id in x ensures id in y && y[id] == x[id] {
      SameTops(models, a, b, id);
    }
    forall id | id in y ensures id in x {
      SameTops(models, b, a, id);
    }
  }

  lemma {:induction false} Enumerate(models: set<Model>) returns (s: seq<Model>)
    ensures Elements(s) == models
  {
    if models == {} {
      s := [];
    } else {
      var m :| m in models;
      var rest := Enumerate(models - {m});
      s := rest + [m];
      assert forall x :: x in s <==> x in Elements(rest) || x == m;
    }
  }

  lemma {:induction false} OneMoreApplied(models: seq<Model>, m: Model)
    requires m in models
    ensures Elements(models + [m]) == Elements(models)
    ensures ApplyAll(map[], models + [m]).0 == Apply(ApplyAll(map[], models).0, m).0
  {
    assert (models + [m])[..|models|] == models;
  }

  /** A tombstone that is not outlived takes its id out, and then the next live model of this id comes in. */
  lemma {:induction false} TombstoneThenLive(store: Store, models: set<Model>, applied: seq<Model>, d: Model, l: Model)
    requires Dated(models) && HoldsTops(store, models, applied)
    requires d in models && l in models && d.deleted && !l.deleted && l.id == d.id && !IsOutlived(models, d)
    ensures var dropped := Apply(store, d).0; d.id.value !in dropped && d.id.value in Apply(dropped, l).0
  {
    if d.id.value in store {
      var m := store[d.id.value];
      assert VersionOf(m) <= VersionOf(d) && m != d;
    }
  }

  /** After everything, the tombstone once more, or the tombstone and then a live model once more. */
  lemma {:induction false} LastTombstoneWins(models: set<Model>, d: Model, l: Model)
    requires Dated(models) && d in models && l in models && d.deleted && !l.deleted && l.id == d.id && !IsOutlived(models, d)
    ensures !OrderFree(models)
  {
    var s := Enumerate(models);
    assert d in Elements(s) && l in Elements(s);
    ApplyAllHoldsTops(models, s);
    TombstoneThenLive(ApplyAll(map[], s).0, models, s, d, l);
    OneMoreApplied(s, d);
    OneMoreApplied(s + [d], l);
    assert ApplyAll(map[], s + [d]).0 != ApplyAll(map[], s + [d] + [l]).0;
  }

  /** Any order of application, with any repetitions, gives the same store, if and only if every tombstone whose id has a
      live model has a later one: deleting forgets the version, so that older models come in again. */
  lemma {:induction false} WhenOrderDoesNotMatter(models: set<Model>)
    requires Dated(models)
    ensures OrderFree(models) <==> TombstonesAreOutlived(models)
  {
    if TombstonesAreOutlived(models) {
      OutlivedIsFree(models);
    } else {
      var d, l :| d in models && l in models && d.deleted && !l.deleted && l.id == d.id && !IsOutlived(models, d);
      LastTombstoneWins(models, d, l);
    }
  }

  /** Without tombstones the order does not matter. */
  lemma {:induction false} OrderDoesNotMatter(a: seq<Model>, b: seq<Model>)
    requires Dated(Elements(a)) && Elements(a) == Elements(b) && forall m :: m in Elements(a) ==> !m.deleted
    ensures ApplyAll(map[], a).0 == ApplyAll(map[], b).0
  {
    WhenOrderDoesNotMatter(Elements(a));
  }

  /** With a model and a later tombstone of the same id it does. */
  lemma {:induction false} TombstonesBreakOrder(l: Model, d: Model)
    requires Dated({l, d}) && l.id == d.id && !l.deleted && d.deleted && VersionOf(l) < VersionOf(d)
    ensures !OrderFree({l, d})
  {
    WhenOrderDoesNotMatter({l, d});
    assert !IsOutlived({l, d}, d);
  }
}
