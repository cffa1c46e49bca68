/** The packets of the transport, the settings of an endpoint, and which packets belong to one value. */
module Packets {
  import opened Outcomes
  import opened Text
  import opened Json
  import opened Split
  import opened Settlement

  datatype Manifest = Manifest(root: Json, refs: seq<ChunkRef>)

  datatype Missing = Missing(cid: JsString, indices: seq<nat>)

  /** `intact` says whether the hash carried by a chunk matches its data. */
  datatype Packet =
    | ManifestPacket(tid: Tid, manifest: Manifest)
    | ChunkPacket(tid: Tid, chunk: Chunk, intact: bool)
    | CompletePacket(tid: Tid)
    | ErrorPacket(tid: Tid)
    | AckPacket(tid: Tid)
    | NackPacket(tid: Tid, wantManifest: bool, wanted: seq<Missing>, wantComplete: bool)

  /** The shape a packet must have to be looked at. */
  predicate WellShaped(p: Packet) {
    match p
    case ManifestPacket(_, m) => forall i :: 0 <= i < |m.refs| ==> m.refs[i].chunks > 0
    case ChunkPacket(_, c, _) => c.index < c.total
    case _ => true
  }

  datatype Config = Config(
    maxAttempts: int,
    deadlineMs: int,
    limits: Limits,
    partialTtlMs: int)

  /** A value that was sent, and the form it was sent in. */
  datatype Unit = Unit(data: Json, packed: Packed)

  /** Everything one side has sent so far. */
  type Sent = map<Tid, Unit>

  function ManifestOf(packed: Packed): Manifest { Manifest(packed.root, packed.refs) }

  function ChunkPackets(t: Tid, chunks: seq<Chunk>): (packets: seq<Packet>)
    ensures |packets| == |chunks|
    ensures forall i :: 0 <= i < |chunks| ==> packets[i] == ChunkPacket(t, chunks[i], true)
  {
    seq(|chunks|, i requires 0 <= i < |chunks| => ChunkPacket(t, chunks[i], true))
  }

  /** One full transmission. */
  function Transmission(t: Tid, packed: Packed): seq<Packet> {
    [ManifestPacket(t, ManifestOf(packed))] + ChunkPackets(t, packed.chunks) + [CompletePacket(t)]
  }

  predicate IsData(p: Packet) { p.ManifestPacket? || p.ChunkPacket? || p.CompletePacket? }

  /** `p` is one of the data packets of this value. */
  predicate BelongsTo(p: Packet, packed: Packed) {
    match p
    case ManifestPacket(_, m) => m == ManifestOf(packed)
    case ChunkPacket(_, c, intact) => intact && c in packed.chunks
    case CompletePacket(_) => true
    case _ => false
  }

  /** What an unreliable channel may deliver: packets that were sent, and chunks damaged on the way. */
  predicate Honest(p: Packet, sent: Sent, gaveUp: set<Tid>) {
    && (p.ErrorPacket? ==> p.tid in gaveUp && p.tid in sent)
    && (IsData(p) ==> p.tid in sent && (BelongsTo(p, sent[p.tid].packed) || (p.ChunkPacket? && !p.intact)))
  }

  lemma {:induction false} TransmissionBelongs(t: Tid, packed: Packed)
    ensures forall p: Packet :: p in Transmission(t, packed) <==> p.tid == t && IsData(p) && BelongsTo(p, packed)
  {
    var chunkPackets := ChunkPackets(t, packed.chunks);
    forall p: Packet | p.tid == t && IsData(p) && BelongsTo(p, packed) ensures p in Transmission(t, packed) {
      if p.ChunkPacket? {
        var i :| 0 <= i < |packed.chunks| && packed.chunks[i] == p.chunk;
        assert chunkPackets[i] == p;
      }
    }
  }
}
