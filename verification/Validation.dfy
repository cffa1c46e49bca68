/** What is refused: packets, honest or not, that contradict the manifest, and values that do not have the sizes it gives. */
module Validation {
  import opened Outcomes
  import opened Text
  import opened Json
  import opened Split
  import opened Ordered
  import opened Settlement
  import opened Packets
  import opened Receiving

  /** The first reference with this chunk id announces so many chunks. */
  ghost predicate Announces(refs: seq<ChunkRef>, cid: JsString, total: nat) {
    exists i :: 0 <= i < |refs| && IsFirst(refs, cid, i) && refs[i].chunks == total
  }

  predicate IsFirst(refs: seq<ChunkRef>, cid: JsString, i: nat)
    requires i < |refs|
  {
    refs[i].cid == cid && forall j :: 0 <= j < i ==> refs[j].cid != cid
  }

  lemma {:induction false} MatchIsAnnounced(m: Manifest, c: Chunk)
    ensures ChunkMatchesManifest(m, c) <==> Announces(m.refs, c.cid, c.total)
  {
    var k := RefIndex(m.refs, c.cid);
    if k < |m.refs| {
      assert IsFirst(m.refs, c.cid, k);
    }
    forall i | 0 <= i < |m.refs| && IsFirst(m.refs, c.cid, i) ensures i == k {
    }
  }

  /** A chunk is buffered, in its place, if and only if it is intact, the place is empty, and the manifest, if there is one,
      announces its total for its id. */
  lemma {:induction false} WhenChunkIsKept(s: Partial, c: Chunk, intact: bool, now: int)
    ensures var s' := AcceptChunk(s, c, intact, now);
            var free := !(c.cid in s.buffer && c.index in s.buffer[c.cid]);
            if intact && free && (s.manifest.Some? ==> Announces(s.manifest.value.refs, c.cid, c.total)) then
              && c.cid in s'.buffer && c.index in s'.buffer[c.cid] && s'.buffer[c.cid][c.index] == c
              && s'.updatedAt == now && s' == s.(buffer := s'.buffer, updatedAt := now)
              && (forall cid, i :: (cid != c.cid || i != c.index) ==>
                    ((cid in s'.buffer && i in s'.buffer[cid]) <==> (cid in s.buffer && i in s.buffer[cid])))
              && (forall cid, i :: cid in s.buffer && i in s.buffer[cid] && (cid != c.cid || i != c.index) ==>
                    s'.buffer[cid][i] == s.buffer[cid][i])
            else s' == s
  {
    if s.manifest.Some? {
      MatchIsAnnounced(s.manifest.value, c);
    }
  }

  /** Every reference has an id of its own, and its pointer leads to the object that names this id. */
  ghost predicate RefsAreInPlace(root: Json, refs: seq<ChunkRef>) {
    && (forall i, j :: 0 <= i < j < |refs| ==> refs[i].cid != refs[j].cid)
    && (forall i :: 0 <= i < |refs| ==> MarkerIsAt(root, refs[i]))
  }

  predicate MarkerIsAt(root: Json, ref: ChunkRef) {
    var v := GetAt(root, Segments(ref.path));
    && v.Some? && v.value.Node? && v.value.shape.Object?
    && GetAt(v.value, [Ascii("$jsonTransportRef")]) == Some(Str(ref.cid))
  }

  /** A manifest is kept if and only if none is held and its references are in place; processing then goes on only if it
      announces every chunk that came before it. A second one is ignored. */
  lemma {:induction false} WhenManifestIsKept(s: Partial, m: Manifest)
    ensures var (s', goOn) := AcceptManifest(s, m);
            && (s.manifest.Some? ==> s' == s && goOn)
            && (s.manifest.None? && !RefsAreInPlace(m.root, m.refs) ==> s' == s && !goOn)
            && (s.manifest.None? && RefsAreInPlace(m.root, m.refs) ==>
                  && s' == s.(manifest := Some(m))
                  && (goOn <==> forall cid, i :: cid in s.buffer && i in s.buffer[cid] ==>
                                  Announces(m.refs, s.buffer[cid][i].cid, s.buffer[cid][i].total)))
  {
    forall i | 0 <= i < |m.refs| ensures RefIsMarked(m.root, m.refs[i]) <==> MarkerIsAt(m.root, m.refs[i]) {
    }
    forall cid, i | cid in s.buffer && i in s.buffer[cid]
      ensures ChunkMatchesManifest(m, s.buffer[cid][i]) <==> Announces(m.refs, s.buffer[cid][i].cid, s.buffer[cid][i].total)
    {
      MatchIsAnnounced(m, s.buffer[cid][i]);
    }
  }

  // ---- what is put back ------------------------------------------------------------------------------

  predicate HasNodeAt(v: Json, walk: seq<JsString>) { GetAt(v, walk).Some? && GetAt(v, walk).value.Node? }

  lemma {:induction false} FieldIndexUpdate(fields: seq<Field>, i: nat, value: Json, name: JsString)
    requires i < |fields|
    ensures FieldIndex(fields[i := Field(fields[i].name, value)], name) == FieldIndex(fields, name)
  {
    SameNamesSameIndex(fields[i := Field(fields[i].name, value)], fields, name);
  }

  /** One step of setting: the field that is there is replaced, and one that is not is added. */
  lemma {:induction false} SetFirst(v: Json, walk: seq<JsString>, value: Json, name: JsString)
    requires walk != [] && SetAt(v, walk, value).Success?
    ensures var v' := SetAt(v, walk, value).value;
            && v.Node? && v'.Node? && v'.shape == v.shape
            && var i, j := FieldIndex(v.fields, name), FieldIndex(v'.fields, name);
            if name == walk[0] then
              && j < |v'.fields|
              && (if i < |v.fields| then SetAt(v.fields[i].value, walk[1..], value) == Success(v'.fields[j].value)
                  else walk == [name] && v'.fields[j].value == value)
            else
              && (i < |v.fields| <==> j < |v'.fields|)
              && (i < |v.fields| ==> v'.fields[j] == v.fields[i])
  {
    var k := FieldIndex(v.fields, walk[0]);
    if k < |v.fields| {
      FieldIndexUpdate(v.fields, k, SetAt(v.fields[k].value, walk[1..], value).value, name);
    } else {
      FieldIndexAppend(v.fields, Field(walk[0], value), name);
    }
  }

  /** Setting succeeds if and only if there is an object or an array to set in. Then the value stands at the end of the
      walk, and what is not on the walk is as it was. */
  lemma {:induction false} SettingIsSeen(v: Json, walk: seq<JsString>, value: Json, other: seq<JsString>)
    requires walk != []
    ensures SetAt(v, walk, value).Success? <==> HasNodeAt(v, walk[..|walk| - 1])
    ensures SetAt(v, walk, value).Success? ==>
              var v' := SetAt(v, walk, value).value;
              GetAt(v', walk) == Some(value) && (!(walk <= other) && !(other <= walk) ==> GetAt(v', other) == GetAt(v, other))
    decreases |walk|
  {
    WhenSettingSucceeds(v, walk, value);
    if SetAt(v, walk, value).Success? {
      SetFirst(v, walk, value, walk[0]);
      var i := FieldIndex(v.fields, walk[0]);
      if |walk| == 1 {
        assert walk[1..] == [];
      } else {
        SettingIsSeen(v.fields[i].value, walk[1..], value, if other != [] then other[1..] else []);
      }
      if other != [] {
        SetFirst(v, walk, value, other[0]);
        PrefixOfTails(walk, other);
      }
    }
  }

  lemma {:induction false} PrefixOfTails(a: seq<JsString>, b: seq<JsString>)
    requires a != [] && b != []
    ensures a[0] == b[0] ==> (a[1..] <= b[1..] <==> a <= b) && (b[1..] <= a[1..] <==> b <= a)
  {
    assert a == [a[0]] + a[1..] && b == [b[0]] + b[1..];
  }

  lemma {:induction false} WhenSettingSucceeds(v: Json, walk: seq<JsString>, value: Json)
    requires walk != []
    ensures SetAt(v, walk, value).Success? <==> HasNodeAt(v, walk[..|walk| - 1])
    decreases |walk|
  {
    if v.Node? {
      var i := FieldIndex(v.fields, walk[0]);
      if i < |v.fields| && |walk| > 1 {
        WhenSettingSucceeds(v.fields[i].value, walk[1..], value);
        assert walk[1..][..|walk[1..]| - 1] == walk[..|walk| - 1][1..];
      } else {
        assert |walk| == 1 ==> walk[..0] == [] && walk[1..] == [];
      }
    }
  }

  // ---- what comes out --------------------------------------------------------------------------------

  lemma {:induction false} FilledIsEnough(b: Buffer, ref: ChunkRef)
    requires Filled(b, ref)
    ensures ref.cid in b && |b[ref.cid]| >= ref.chunks
  {
    if ref.chunks > 0 {
      AllIndices(b[ref.cid], ref.chunks);
    }
  }

  function Below(n: nat): set<nat> { if n == 0 then {} else Below(n - 1) + {n - 1} }

  lemma {:induction false} BelowFacts(n: nat)
    ensures |Below(n)| == n && forall i: nat :: i in Below(n) <==> i < n
  {
    if n > 0 {
      BelowFacts(n - 1);
    }
  }

  lemma {:induction false} AllIndices(received: map<nat, Chunk>, n: nat)
    requires forall i: nat :: i < n ==> i in received
    ensures |received| >= n
  {
    BelowFacts(n);
    assert Below(n) <= received.Keys;
    SubsetSize(Below(n), received.Keys);
    assert |received.Keys| == |received|;
  }

  ghost predicate SizesAreRight(refs: seq<ChunkRef>, b: Buffer) {
    forall i :: 0 <= i < |refs| ==> IsOfSize(b, refs[i])
  }

  predicate IsOfSize(b: Buffer, ref: ChunkRef) { Filled(b, ref) && |Utf8(TextOf(b, ref))| == ref.size }

  lemma {:induction false} SizesPassMeans(refs: seq<ChunkRef>, b: Buffer)
    requires forall i :: 0 <= i < |refs| ==> Filled(b, refs[i])
    ensures SizesPass(refs, b) <==> SizesAreRight(refs, b)
  {
    if refs != [] {
      FilledIsEnough(b, refs[0]);
      ByteLengthIsUtf8Length(TextOf(b, refs[0]));
      SizesPassMeans(refs[1..], b);
      assert refs == [refs[0]] + refs[1..];
      if SizesAreRight(refs[1..], b) && IsOfSize(b, refs[0]) {
        forall i | 0 <= i < |refs| ensures IsOfSize(b, refs[i]) {
          assert i > 0 ==> refs[i] == refs[1..][i - 1];
        }
      }
      if SizesAreRight(refs, b) {
        forall i | 0 <= i < |refs| - 1 ensures IsOfSize(b, refs[1..][i]) {
          assert refs[1..][i] == refs[i + 1];
        }
      }
    }
  }

  /** Whatever has arrived: a value comes out if and only if manifest and completion are there, every reference is filled
      with a text of the size it gives, the texts can be put in their places, and the result is not one of the values that
      count as nothing. */
  lemma {:induction false} WhatComesOut(s: Partial, v: Json)
    ensures Yield(s, true) == Some(v) <==>
              && s.manifest.Some? && s.complete
              && SizesAreRight(s.manifest.value.refs, s.buffer)
              && Assemble(s.manifest.value.root, s.manifest.value.refs, s.buffer) == Success(Some(v))
              && !(v == Null || v == Bool(false) || v == Num(0.0) || v == Str([]))
  {
    if s.manifest.Some? {
      var refs := s.manifest.value.refs;
      if forall i :: 0 <= i < |refs| ==> Filled(s.buffer, refs[i]) {
        SizesPassMeans(refs, s.buffer);
      } else {
        assert Assemble(s.manifest.value.root, refs, s.buffer) == Success(None);
      }
    }
  }
}
