/** The transport as the object it is: each method is proved to do to its fields what one event of the protocol does. */
module Transport {
  import opened Outcomes
  import opened Text
  import opened Json
  import opened Split
  import opened Ordered
  import opened Settlement
  import opened Deliveries
  import opened Packets
  import opened Receiving
  import opened Sending
  import opened Protocol

  // ---- settled memory ----------------------------------------------------------------------------

  method SweepSettledMapTtl(settled: Memory, now: int) returns (m: Memory)
    ensures m == SweepTtl(settled, now)
  {
    m := settled;
    var tids := settled.order;
    for i := 0 to |tids|
      invariant DropExpired(settled, tids, now) == DropExpired(m, tids[i..], now)
    {
      assert tids[i..][1..] == tids[i + 1..];
      if tids[i] in m.vals && Expired(m.vals[tids[i]], now) {
        m := Delete(m, tids[i]);
      }
    }
    assert tids[|tids|..] == [];
  }

  method PickSettledEvictionVictim(m: Memory, now: int) returns (victim: Option<Tid>)
    requires Valid(m)
    ensures victim == if m.order == [] then None else Some(Victim(m, now))
  {
    if m.order == [] {
      return None;
    }
    var oldest := m.order[0];
    if Expired(m.vals[oldest], now) {
      return Some(oldest);
    }
    for i := 0 to |m.order|
      invariant forall j :: 0 <= j < i ==> m.vals[m.order[j]].ok
    {
      if !m.vals[m.order[i]].ok {
        return Some(m.order[i]);
      }
    }
    return Some(oldest);
  }

  method SweepSettledMapSize(settled: Memory, limits: Limits, now: int) returns (m: Memory)
    requires Valid(settled)
    ensures m == EvictOver(settled, limits, now) && Valid(m)
  {
    m := settled;
    while |m.vals| > limits.cap
      invariant Valid(m) && EvictOver(settled, limits, now) == EvictOver(m, limits, now)
      decreases |m.vals|
    {
      var victim := PickSettledEvictionVictim(m, now);
      if victim.None? {
        break;
      }
      DeleteIsValid(m, victim.value);
      m := Delete(m, victim.value);
    }
  }

  lemma {:induction false} DropExpiredIsValid(m: Memory, tids: seq<Tid>, now: int)
    requires Valid(m)
    ensures Valid(DropExpired(m, tids, now))
  {
    DropExpiredFacts(m, tids, now);
  }

  // ---- looking at a partial transfer -------------------------------------------------------------

  method ValidateChunkForManifest(m: Manifest, chunk: Chunk) returns (valid: bool)
    ensures valid == ChunkMatchesManifest(m, chunk)
  {
    var i := 0;
    while i < |m.refs| && m.refs[i].cid != chunk.cid
      invariant i <= |m.refs|
      invariant forall j :: 0 <= j < i ==> m.refs[j].cid != chunk.cid
    {
      i := i + 1;
    }
    assert i == RefIndex(m.refs, chunk.cid);
    return i < |m.refs| && m.refs[i].chunks == chunk.total;
  }

  method ValidateBufferedChunks(m: Manifest, buffer: Buffer) returns (valid: bool)
    ensures valid == BufferMatchesManifest(m, buffer)
  {
    var cids := buffer.Keys;
    while cids != {}
      invariant cids <= buffer.Keys
      invariant forall cid, i :: cid in buffer && cid !in cids && i in buffer[cid] ==> ChunkMatchesManifest(m, buffer[cid][i])
    {
      var cid :| cid in cids;
      var indices := buffer[cid].Keys;
      while indices != {}
        invariant indices <= buffer[cid].Keys
        invariant forall i :: i in buffer[cid] && i !in indices ==> ChunkMatchesManifest(m, buffer[cid][i])
      {
        var index :| index in indices;
        var matches := ValidateChunkForManifest(m, buffer[cid][index]);
        if !matches {
          return false;
        }
        indices := indices - {index};
      }
      cids := cids - {cid};
    }
    return true;
  }

  method GetByJsonPointer(root: Json, path: JsString) returns (v: Option<Json>)
    ensures v == GetByPointer(root, path)
  {
    var segments, cursor := Segments(path), root;
    for i := 0 to |segments|
      invariant GetAt(root, segments) == GetAt(cursor, segments[i..])
    {
      assert segments[i..][1..] == segments[i + 1..];
      if !cursor.Node? {
        return None;
      }
      var k := FieldIndex(cursor.fields, segments[i]);
      if k == |cursor.fields| {
        return None;
      }
      cursor := cursor.fields[k].value;
    }
    return Some(cursor);
  }

  method ValidateManifest(m: Manifest) returns (valid: bool)
    ensures valid == ValidManifest(m.root, m.refs)
  {
    var cids: set<JsString> := {};
    for i := 0 to |m.refs|
      invariant forall cid :: cid in cids <==> exists j :: 0 <= j < i && m.refs[j].cid == cid
      invariant ValidManifest(m.root, m.refs[..i])
    {
      if m.refs[i].cid in cids {
        var j :| 0 <= j < i && m.refs[j].cid == m.refs[i].cid;
        return false;
      }
      cids := cids + {m.refs[i].cid};
      var marker := GetByJsonPointer(m.root, m.refs[i].path);
      if !IsMarkerFor(marker, m.refs[i].cid) {
        assert !RefIsMarked(m.root, m.refs[i]);
        return false;
      }
      assert m.refs[..i + 1] == m.refs[..i] + [m.refs[i]];
    }
    assert m.refs[..|m.refs|] == m.refs;
    return true;
  }

  /** The texts of the chunks from 0 to `n`, or None where one is missing. */
  method CollectParts(received: map<nat, Chunk>, n: nat) returns (parts: Option<seq<JsString>>)
    ensures parts.Some? <==> forall i :: 0 <= i < n ==> i in received
    ensures parts.Some? ==> parts.value == Collected(received, n)
  {
    var found: seq<JsString> := [];
    for index := 0 to n
      invariant forall i :: 0 <= i < index ==> i in received
      invariant found == Collected(received, index)
    {
      if index !in received {
        return None;
      }
      found := found + [received[index].data];
    }
    return Some(found);
  }

  method ValidateCompletedChunkSizes(refs: seq<ChunkRef>, buffer: Buffer) returns (valid: bool)
    ensures valid == SizesPass(refs, buffer)
  {
    for r := 0 to |refs|
      invariant SizesPass(refs, buffer) == SizesPass(refs[r..], buffer)
    {
      var ref := refs[r];
      assert refs[r..][0] == ref && refs[r..][1..] == refs[r + 1..];
      if ref.cid in buffer && |buffer[ref.cid]| >= ref.chunks {
        var parts := CollectParts(buffer[ref.cid], ref.chunks);
        if parts.None? {
          return true;
        }
        if ByteLength(Concat(parts.value)) != ref.size {
          return false;
        }
      }
    }
    assert refs[|refs|..] == [];
    return true;
  }

  lemma {:induction false} EnoughMembers(s: set<nat>, n: nat)
    requires forall i :: 0 <= i < n ==> i in s
    ensures |s| >= n
  {
    if n > 0 {
      EnoughMembers(s - {n - 1}, n - 1);
    }
  }

  lemma {:induction false} TooFewMeansNotFilled(buffer: Buffer, ref: ChunkRef)
    requires Filled(buffer, ref)
    ensures |buffer[ref.cid]| >= ref.chunks
  {
    EnoughMembers(buffer[ref.cid].Keys, ref.chunks);
    assert |buffer[ref.cid].Keys| == |buffer[ref.cid]|;
  }

  predicate HasRef(refs: seq<ChunkRef>, cid: JsString) {
    exists i :: 0 <= i < |refs| && refs[i].cid == cid
  }

  /** The texts kept per chunk id after some references, a later one overriding an earlier one. */
  ghost predicate KeepsTexts(values: map<JsString, JsString>, refs: seq<ChunkRef>, buffer: Buffer) {
    && (forall i :: 0 <= i < |refs| ==> Filled(buffer, refs[i]))
    && (forall cid :: cid in values <==> HasRef(refs, cid))
    && (forall cid :: cid in values ==> values[cid] == TextFor(refs, buffer, cid))
  }

  lemma {:induction false} KeepOneMore(values: map<JsString, JsString>, refs: seq<ChunkRef>, buffer: Buffer, ref: ChunkRef)
    requires KeepsTexts(values, refs, buffer) && Filled(buffer, ref)
    ensures KeepsTexts(values[ref.cid := TextOf(buffer, ref)], refs + [ref], buffer)
  {
    var more, all := values[ref.cid := TextOf(buffer, ref)], refs + [ref];
    assert all[|refs|] == ref && all[..|refs|] == refs;
    forall cid ensures cid in more <==> HasRef(all, cid) {
      if HasRef(refs, cid) {
        var i :| 0 <= i < |refs| && refs[i].cid == cid;
        assert all[i].cid == cid;
      }
    }
  }

  /** The text of every reference, or None while chunks are missing. */
  method CollectTexts(refs: seq<ChunkRef>, buffer: Buffer) returns (values: Option<map<JsString, JsString>>)
    ensures values.Some? <==> forall i :: 0 <= i < |refs| ==> Filled(buffer, refs[i])
    ensures values.Some? ==> KeepsTexts(values.value, refs, buffer)
  {
    var kept: map<JsString, JsString> := map[];
    for i := 0 to |refs|
      invariant KeepsTexts(kept, refs[..i], buffer)
    {
      var ref := refs[i];
      if ref.cid !in buffer || |buffer[ref.cid]| < ref.chunks {
        if Filled(buffer, ref) {
          TooFewMeansNotFilled(buffer, ref);
        }
        return None;
      }
      var parts := CollectParts(buffer[ref.cid], ref.chunks);
      if parts.None? {
        return None;
      }
      KeepOneMore(kept, refs[..i], buffer, ref);
      assert refs[..i + 1] == refs[..i] + [ref];
      kept := kept[ref.cid := Concat(parts.value)];
    }
    assert refs[..|refs|] == refs;
    return Some(kept);
  }

  lemma {:induction false} RestoreOneMore(root: Json, refs: seq<ChunkRef>, buffer: Buffer, values: map<JsString, JsString>, k: nat,
                                          patched: Json)
    requires KeepsTexts(values, refs, buffer) && k < |refs| && Restore(root, refs, buffer, k) == Success(patched)
    ensures refs[k].cid in values
    ensures Restore(root, refs, buffer, k + 1) == SetByPointer(patched, refs[k].path, Str(values[refs[k].cid]))
  {
    assert HasRef(refs, refs[k].cid);
  }

  method PutTextsBack(root: Json, refs: seq<ChunkRef>, ghost buffer: Buffer, values: map<JsString, JsString>) returns (r: Result<Json>)
    requires KeepsTexts(values, refs, buffer)
    ensures r == Restore(root, refs, buffer, |refs|)
  {
    var patched := root;
    for i := 0 to |refs|
      invariant Restore(root, refs, buffer, i) == Success(patched)
    {
      RestoreOneMore(root, refs, buffer, values, i, patched);
      r := SetByPointer(patched, refs[i].path, Str(values[refs[i].cid]));
      if r.Failure? {
        RestoreFails(root, refs, buffer, i + 1);
        return;
      }
      patched := r.value;
    }
    return Success(patched);
  }

  method AssembleJson(manifest: Manifest, buffer: Buffer) returns (r: Result<Option<Json>>)
    ensures r == Assemble(manifest.root, manifest.refs, buffer)
  {
    var values := CollectTexts(manifest.refs, buffer);
    if values.None? {
      return Success(None);
    }
    var root := PutTextsBack(manifest.root, manifest.refs, buffer, values.value);
    match root
    case Failure(e) => return Failure(e);
    case Success(v) => return Success(Some(v));
  }

  /** Once putting a text back throws, the whole assembly throws. */
  lemma {:induction false} RestoreFails(root: Json, refs: seq<ChunkRef>, buffer: Buffer, k: nat)
    requires k <= |refs| && forall i :: 0 <= i < |refs| ==> Filled(buffer, refs[i])
    requires Restore(root, refs, buffer, k).Failure?
    ensures Restore(root, refs, buffer, |refs|) == Restore(root, refs, buffer, k)
    decreases |refs| - k
  {
    if k < |refs| {
      RestoreFails(root, refs, buffer, k + 1);
    }
  }

  // ---- taking a packet into a partial transfer -----------------------------------------------------

  method AcceptManifest(s: Partial, m: Manifest) returns (s': Partial, goOn: bool)
    ensures (s', goOn) == Receiving.AcceptManifest(s, m)
  {
    if s.manifest.Some? {
      return s, true;
    }
    var valid := ValidateManifest(m);
    if !valid {
      return s, false;
    }
    goOn := ValidateBufferedChunks(m, s.buffer);
    return s.(manifest := Some(m)), goOn;
  }

  method AcceptChunkPacket(s: Partial, chunk: Chunk, intact: bool, now: int) returns (s': Partial)
    ensures s' == AcceptChunk(s, chunk, intact, now)
  {
    if !intact {
      return s;
    }
    if s.manifest.Some? {
      var valid := ValidateChunkForManifest(s.manifest.value, chunk);
      if !valid {
        return s;
      }
    }
    var byIndex: map<nat, Chunk> := if chunk.cid in s.buffer then s.buffer[chunk.cid] else map[];
    if chunk.index in byIndex {
      return s;
    }
    return s.(buffer := s.buffer[chunk.cid := byIndex[chunk.index := chunk]], updatedAt := now);
  }

  method Accept(s: Partial, p: Packet, now: int) returns (s': Partial, goOn: bool)
    requires IsData(p)
    ensures (s', goOn) == AcceptInto(s, p, now)
  {
    match p
    case ManifestPacket(t, m) =>
      s', goOn := AcceptManifest(s, m);
    case ChunkPacket(_, chunk, intact) =>
      s' := AcceptChunkPacket(s, chunk, intact, now);
      goOn := true;
    case CompletePacket(_) =>
      s', goOn := s.(complete := true), true;
  }

  /** The value of a partial transfer that is complete and valid. */
  method TryAssemble(s: Partial) returns (v: Option<Json>)
    ensures v == Yield(s, true)
  {
    if s.manifest.None? {
      return None;
    }
    var sizesMatch := ValidateCompletedChunkSizes(s.manifest.value.refs, s.buffer);
    if !sizesMatch || !s.complete {
      return None;
    }
    var assembled := AssembleJson(s.manifest.value, s.buffer);
    match assembled
    case Success(Some(value)) => return if Falsy(value) then None else Some(value);
    case _ => return None;
  }

  // ---- building packets --------------------------------------------------------------------------

  method BuildNackPacket(t: Tid, s: Partial) returns (nack: Packet)
    ensures nack == BuildNack(t, s)
  {
    if s.manifest.None? {
      return NackPacket(t, true, [], false);
    }
    var refs := s.manifest.value.refs;
    var entries: seq<Missing> := [];
    for i := 0 to |refs|
      invariant entries == MissingOf(s.buffer, refs[..i])
    {
      var ref := refs[i];
      var missing: seq<nat> := [];
      for index := 0 to ref.chunks
        invariant missing == MissingIndices(s.buffer, ref.cid, index)
      {
        if !(ref.cid in s.buffer && index in s.buffer[ref.cid]) {
          missing := missing + [index];
        }
      }
      if |missing| > 0 {
        entries := entries + [Missing(ref.cid, missing)];
      }
      assert refs[..i + 1][..|refs[..i + 1]| - 1] == refs[..i];
    }
    assert refs[..|refs|] == refs;
    return NackPacket(t, false, entries, !s.complete);
  }

  /** The packets that answer a nack, in the order they are sent. */
  method CollectRepair(t: Tid, packed: Packed, nack: Packet) returns (out: seq<Packet>)
    requires nack.NackPacket?
    ensures out == Repair(t, packed, nack.wantManifest, nack.wanted, nack.wantComplete)
  {
    var chunks: seq<Packet> := [];
    for e := 0 to |nack.wanted|
      invariant chunks == ResendChunks(t, packed.chunks, nack.wanted[..e])
    {
      var entry := nack.wanted[e];
      var found: seq<Packet> := [];
      for i := 0 to |entry.indices|
        invariant found == ResendIndices(t, packed.chunks, entry.cid, entry.indices[..i])
      {
        var k := FindChunk(packed.chunks, entry.cid, entry.indices[i]);
        if k < |packed.chunks| {
          found := found + [ChunkPacket(t, packed.chunks[k], true)];
        }
        assert entry.indices[..i + 1][..|entry.indices[..i + 1]| - 1] == entry.indices[..i];
      }
      assert entry.indices[..|entry.indices|] == entry.indices;
      chunks := chunks + found;
      assert nack.wanted[..e + 1][..|nack.wanted[..e + 1]| - 1] == nack.wanted[..e];
    }
    assert nack.wanted[..|nack.wanted|] == nack.wanted;
    return (if nack.wantManifest then [ManifestPacket(t, ManifestOf(packed))] else []) + chunks
           + (if nack.wantComplete then [CompletePacket(t)] else []);
  }
}
