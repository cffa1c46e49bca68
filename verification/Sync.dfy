/** A replica of the models a server holds, kept fresh by pulls and by server-sent events. */
module Sync {
  import opened Outcomes

  type Id = string

  /** A model as it comes over the wire: id and version may be missing; `deleted` marks a tombstone. */
  datatype Model = Model(id: Option<Id>, version: Option<int>, deleted: bool, body: string)

  type Store = map<Id, Model>

  // ---- freshness ---------------------------------------------------------------------------------

  /** What one incoming model does to the store, and whether it was applied. */
  function Apply(store: Store, incoming: Model): (Store, bool) {
    if incoming.id.None? || incoming.version.None? then (store, false)
    else
      var id := incoming.id.value;
      if id !in store && incoming.deleted then (store, false)
      else if id in store && store[id].version.Some? && incoming.version.value <= store[id].version.value then (store, false)
      else if incoming.deleted then (store - {id}, true)
      else (store[id := incoming], true)
  }

  /** The store after some models, and those of them that were applied. */
  function ApplyAll(store: Store, models: seq<Model>): (Store, seq<Model>) {
    if models == [] then (store, [])
    else
      var earlier, last := ApplyAll(store, models[..|models| - 1]), models[|models| - 1];
      var (after, applied) := Apply(earlier.0, last);
      (after, earlier.1 + if applied then [last] else [])
  }

  function VersionOf(m: Model): int { if m.version.Some? then m.version.value else 0 }

  function Raised(watermark: int, applied: seq<Model>): int {
    if applied == [] then watermark
    else
      var before := Raised(watermark, applied[..|applied| - 1]);
      var v := VersionOf(applied[|applied| - 1]);
      if v > before then v else before
  }

  /** The replica of one model type. */
  datatype Replica = Replica(store: Store, watermark: int)

  /** A page of a pull: only here does the watermark move, and only with models that were applied. */
  function AcceptPage(r: Replica, models: seq<Model>): Replica {
    var (store, applied) := ApplyAll(r.store, models);
    Replica(store, Raised(r.watermark, applied))
  }

  function AcceptEvent(r: Replica, models: seq<Model>): Replica { r.(store := ApplyAll(r.store, models).0) }

  // ---- the object --------------------------------------------------------------------------------

  class ModelSyncHandle {
    var store: Store
    var watermark: int
    var pulling: bool
    var closed: bool

    ghost function State(): Replica
      reads this
    {
      Replica(store, watermark)
    }

    constructor ()
      ensures State() == Replica(map[], 0) && !pulling && !closed
    {
      store, watermark, pulling, closed := map[], 0, false, false;
    }

    method ApplyOne(incoming: Model) returns (applied: bool)
      modifies `store
      ensures (store, applied) == Apply(old(store), incoming)
    {
      if incoming.id.None? || incoming.version.None? {
        return false;
      }
      var id := incoming.id.value;
      if id !in store && incoming.deleted {
        return false;
      }
      if id in store {
        var localVersion := store[id].version;
        if localVersion.Some? && incoming.version.value <= localVersion.value {
          return false;
        }
      }
      if incoming.deleted {
        store := store - {id};
      } else {
        store := store[id := incoming];
      }
      return true;
    }

    method ApplyModels(models: seq<Model>) returns (changed: seq<Model>)
      modifies `store
      ensures (store, changed) == ApplyAll(old(store), models)
    {
      changed := [];
      for i := 0 to |models|
        invariant (store, changed) == ApplyAll(old(store), models[..i])
      {
        ghost var next := models[..i + 1];
        assert next[..|next| - 1] == models[..i] && next[|next| - 1] == models[i];
        var applied := ApplyOne(models[i]);
        assert changed + [] == changed;
        if applied {
          changed := changed + [models[i]];
        }
      }
      assert models[..|models|] == models;
    }

    /** Starts a pull from the watermark, unless one is in flight or the handle is closed. */
    method BeginPull() returns (since: Option<int>, started: bool)
      modifies `pulling
      ensures started == (!closed && !old(pulling))
      ensures pulling == (old(pulling) || started)
      ensures since == if watermark == 0 then None else Some(watermark)
    {
      since := if watermark == 0 then None else Some(watermark);
      started := !closed && !pulling;
      if started {
        pulling := true;
      }
    }

    /** One page of the pull in flight; the pull goes on while there is a cursor to continue from. */
    method ReceivePage(models: seq<Model>, more: bool) returns (changed: seq<Model>)
      requires pulling
      modifies `store, `watermark, `pulling
      ensures State() == AcceptPage(old(State()), models)
      ensures (store, changed) == ApplyAll(old(store), models)
      ensures pulling == more
    {
      changed := ApplyModels(models);
      for i := 0 to |changed|
        invariant watermark == Raised(old(watermark), changed[..i])
        invariant store == ApplyAll(old(store), models).0 && pulling
      {
        assert changed[..i + 1][..|changed[..i + 1]| - 1] == changed[..i];
        var v := VersionOf(changed[i]);
        if v > watermark {
          watermark := v;
        }
      }
      assert changed[..|changed|] == changed;
      pulling := more;
    }

    /** A failed page ends the pull; what earlier pages brought stays. */
    method PageFailed()
      requires pulling
      modifies `pulling
      ensures !pulling
    {
      pulling := false;
    }

    /** An event owned by this type, if it is owned at all. */
    method ApplyEvent(models: Option<seq<Model>>) returns (changed: seq<Model>)
      modifies `store
      ensures State() == if closed || models.None? then old(State()) else AcceptEvent(old(State()), models.value)
      ensures !closed && models.Some? ==> (store, changed) == ApplyAll(old(store), models.value)
      ensures closed || models.None? ==> store == old(store) && changed == []
    {
      if closed || models.None? {
        return [];
      }
      changed := ApplyModels(models.value);
    }

    method Close()
      modifies `closed
      ensures closed
    {
      closed := true;
    }
  }
}
