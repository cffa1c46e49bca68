/** The receiving half of a reliable endpoint: partial transfers, validation, assembly, settlement. */
module Receiving {
  import opened Outcomes
  import opened Text
  import opened Json
  import opened Split
  import opened Ordered
  import opened Settlement
  import opened Deliveries
  import opened Packets

  datatype Partial = Partial(manifest: Option<Manifest>, complete: bool, updatedAt: int, buffer: Buffer)

  datatype Receiver = Receiver(
    states: JsMap<Tid, Partial>,
    nackTimers: set<Tid>,
    settled: Memory,
    delivered: seq<Delivery>,
    forgotten: seq<Drop>)

  // ---- settling and expiry ---------------------------------------------------------------------

  function SettleReceived(r: Receiver, c: Config, now: int, t: Tid, ok: bool): Receiver {
    var m := Settle(r.settled, t, ok, now, c.limits);
    r.(settled := m, forgotten := r.forgotten + [Drop(Put(r.settled, t, NewEntry(ok, now, c.limits)), m, now)])
  }

  function SweepSettled(r: Receiver, now: int): Receiver {
    var m := SweepTtl(r.settled, now);
    r.(settled := m, forgotten := r.forgotten + [Drop(r.settled, m, now)])
  }

  predicate PartialExpired(p: Partial, c: Config, now: int) { now - p.updatedAt > c.partialTtlMs }

  /** Drops an unfinished transfer and settles it as failed. */
  function Abandon(r: Receiver, c: Config, now: int, t: Tid): Receiver {
    SettleReceived(r.(states := Delete(r.states, t), nackTimers := r.nackTimers - {t}), c, now, t, false)
  }

  function ExpirePartials(r: Receiver, c: Config, now: int, tids: seq<Tid>): Receiver
    decreases tids
  {
    if tids == [] then r
    else if tids[0] in r.states.vals && PartialExpired(r.states.vals[tids[0]], c, now) then
      ExpirePartials(Abandon(r, c, now, tids[0]), c, now, tids[1..])
    else ExpirePartials(r, c, now, tids[1..])
  }

  function Cleanup(r: Receiver, c: Config, now: int): Receiver {
    var swept := SweepSettled(r, now);
    if c.partialTtlMs <= 0 then swept else ExpirePartials(swept, c, now, swept.states.order)
  }

  // ---- accepting a packet into a partial transfer ----------------------------------------------

  /** Position of the first reference with this chunk id, or the number of references. */
  function RefIndex(refs: seq<ChunkRef>, cid: JsString): (i: nat)
    ensures i <= |refs|
    ensures i < |refs| ==> refs[i].cid == cid
    ensures forall j :: 0 <= j < i ==> refs[j].cid != cid
  {
    if refs == [] || refs[0].cid == cid then 0 else 1 + RefIndex(refs[1..], cid)
  }

  predicate ChunkMatchesManifest(m: Manifest, c: Chunk) {
    var i := RefIndex(m.refs, c.cid);
    i < |m.refs| && m.refs[i].chunks == c.total
  }

  predicate BufferMatchesManifest(m: Manifest, b: Buffer) {
    forall cid, i :: cid in b && i in b[cid] ==> ChunkMatchesManifest(m, b[cid][i])
  }

  predicate HasIndex(b: Buffer, cid: JsString, i: nat) { cid in b && i in b[cid] }

  function AddChunk(b: Buffer, c: Chunk): Buffer {
    var byIndex := if c.cid in b then b[c.cid] else map[];
    b[c.cid := byIndex[c.index := c]]
  }

  function AcceptChunk(s: Partial, c: Chunk, intact: bool, now: int): Partial {
    if !intact then s
    else if s.manifest.Some? && !ChunkMatchesManifest(s.manifest.value, c) then s
    else if HasIndex(s.buffer, c.cid, c.index) then s
    else s.(buffer := AddChunk(s.buffer, c), updatedAt := now)
  }

  /** A manifest is kept when it is valid; a second one changes nothing. */
  function AcceptManifest(s: Partial, m: Manifest): (Partial, bool) {
    if s.manifest.Some? then (s, true)
    else if !ValidManifest(m.root, m.refs) then (s, false)
    else (s.(manifest := Some(m)), BufferMatchesManifest(m, s.buffer))
  }

  /** The partial transfer after the packet, and whether processing goes on to assembly. */
  function AcceptInto(s: Partial, p: Packet, now: int): (Partial, bool) {
    match p
    case ManifestPacket(_, m) => AcceptManifest(s, m)
    case ChunkPacket(_, c, intact) => (AcceptChunk(s, c, intact, now), true)
    case CompletePacket(_) => (s.(complete := true), true)
    case _ => (s, true)
  }

  /** The size check walks the references in order and stops at one that is full in number but has a gap. */
  predicate SizesPass(refs: seq<ChunkRef>, b: Buffer) {
    refs == [] || (
      var ref := refs[0];
      if ref.cid !in b || |b[ref.cid]| < ref.chunks then SizesPass(refs[1..], b)
      else if !Filled(b, ref) then true
      else ByteLength(TextOf(b, ref)) == ref.size && SizesPass(refs[1..], b)
    )
  }

  /** Values that count as nothing when they come out of assembly. */
  predicate Falsy(v: Json) {
    v == Null || v == Bool(false) || v == Num(0.0) || v == Str([])
  }

  function AssembleState(s: Partial): Result<Option<Json>> {
    if s.manifest.None? || !s.complete then Success(None)
    else Assemble(s.manifest.value.root, s.manifest.value.refs, s.buffer)
  }

  /** What a partial transfer yields after a packet: a value to deliver, or nothing. */
  function Yield(s: Partial, goOn: bool): Option<Json> {
    if !goOn then None
    else if s.manifest.Some? && !SizesPass(s.manifest.value.refs, s.buffer) then None
    else
      match AssembleState(s)
      case Success(Some(v)) => if Falsy(v) then None else Some(v)
      case _ => None
  }

  // ---- receiving -------------------------------------------------------------------------------

  /** Finds or creates the partial transfer with this id, and arms its nack timer. */
  function FindOrCreate(r: Receiver, now: int, t: Tid): (r': Receiver)
    ensures t in r'.states.vals
  {
    var s := if t in r.states.vals then r.states.vals[t].(updatedAt := now) else Partial(None, false, now, map[]);
    r.(states := Put(r.states, t, s), nackTimers := r.nackTimers + {t})
  }

  /** Expires old transfers first. */
  function Touch(r: Receiver, c: Config, now: int, t: Tid): (r': Receiver)
    ensures t in r'.states.vals
  {
    FindOrCreate(Cleanup(r, c, now), now, t)
  }

  /** Hands the value to the listeners, forgets the partial transfer, settles it and acknowledges it. */
  function Deliver(r: Receiver, c: Config, now: int, t: Tid, v: Json): Receiver {
    SettleReceived(
      r.(states := Delete(r.states, t), delivered := r.delivered + [Delivery(t, v, now)], nackTimers := r.nackTimers - {t}),
      c, now, t, true)
  }

  /** The receiver with the packet taken into its partial transfer, and what that transfer now yields. */
  function TakeIn(r: Receiver, c: Config, now: int, p: Packet): (Receiver, Option<Json>) {
    var touched := Touch(r, c, now, p.tid);
    var (s, goOn) := AcceptInto(touched.states.vals[p.tid], p, now);
    (touched.(states := Put(touched.states, p.tid, s)), Yield(s, goOn))
  }

  /** Delivers and acknowledges what a partial transfer yielded, if anything. */
  function Finish(r: Receiver, c: Config, now: int, t: Tid, yielded: Option<Json>): (Receiver, seq<Packet>) {
    match yielded
    case None => (r, [])
    case Some(v) => (Deliver(r, c, now, t, v), [AckPacket(t)])
  }

  function ReceiveData(r: Receiver, c: Config, now: int, p: Packet): (Receiver, seq<Packet>) {
    var t := p.tid;
    if t in r.settled.vals then (r, if r.settled.vals[t].ok then [AckPacket(t)] else [])
    else
      var (stored, yielded) := TakeIn(r, c, now, p);
      Finish(stored, c, now, t, yielded)
  }

  function Receive(r: Receiver, c: Config, now: int, p: Packet): (Receiver, seq<Packet>) {
    if p.ErrorPacket? then (Abandon(r, c, now, p.tid), [])
    else if IsData(p) then ReceiveData(r, c, now, p)
    else (r, [])
  }

  // ---- asking for what is missing --------------------------------------------------------------

  /** The indices below `n` that are not buffered, in order. */
  function MissingIndices(b: Buffer, cid: JsString, n: nat): seq<nat> {
    if n == 0 then []
    else MissingIndices(b, cid, n - 1) + if HasIndex(b, cid, n - 1) then [] else [n - 1]
  }

  function MissingOf(b: Buffer, refs: seq<ChunkRef>): seq<Missing> {
    if refs == [] then []
    else
      var last := refs[|refs| - 1];
      var indices := MissingIndices(b, last.cid, last.chunks);
      MissingOf(b, refs[..|refs| - 1]) + if indices == [] then [] else [Missing(last.cid, indices)]
  }

  function BuildNack(t: Tid, s: Partial): Packet {
    if s.manifest.None? then NackPacket(t, true, [], false)
    else NackPacket(t, false, MissingOf(s.buffer, s.manifest.value.refs), !s.complete)
  }

  function FireNack(r: Receiver, t: Tid): (Receiver, seq<Packet>) {
    (r.(nackTimers := r.nackTimers - {t}), if t in r.states.vals then [BuildNack(t, r.states.vals[t])] else [])
  }
}
