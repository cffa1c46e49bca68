/** Splitting a JSON value into a manifest and chunks, and assembling it again. */
module Split {
  import opened Outcomes
  import opened Text
  import opened Json

  datatype Options = Options(
    largeValueBytes: int,
    chunkBytes: int,
    preferredSplitPaths: seq<JsString>,
    split: (JsString, JsString, nat) -> bool)

  /** The `seq`-th identifier handed out by the identity provider. */
  type ChunkIds = nat -> JsString

  ghost predicate Distinct(ids: ChunkIds) {
    forall i: nat, j: nat :: ids(i) == ids(j) ==> i == j
  }

  datatype ChunkRef = ChunkRef(cid: JsString, path: JsString, size: nat, chunks: nat)

  datatype Chunk = Chunk(cid: JsString, index: nat, total: nat, data: JsString)

  /** One string leaf taken out of the tree: `walk` lists the names that the pointer `path` spells. */
  datatype Cut = Cut(cid: JsString, path: JsString, walk: seq<JsString>, text: JsString)

  datatype Tree = Tree(root: Json, cuts: seq<Cut>)

  datatype Packed = Packed(root: Json, refs: seq<ChunkRef>, chunks: seq<Chunk>)

  const STAR: JsString := Ascii("*")

  predicate MatchesPattern(path: seq<JsString>, pattern: seq<JsString>) {
    && |path| == |pattern|
    && forall i :: 0 <= i < |path| ==> pattern[i] == STAR || pattern[i] == path[i]
  }

  predicate MatchesPreferredSplitPath(path: JsString, patterns: seq<JsString>) {
    exists i :: 0 <= i < |patterns| && MatchesPattern(SplitSlash(path)[1..], SplitSlash(patterns[i])[1..])
  }

  predicate ShouldSplit(path: JsString, text: JsString, size: nat, o: Options) {
    var preferred := if o.largeValueBytes < o.chunkBytes then o.largeValueBytes else o.chunkBytes;
    || o.split(path, text, size)
    || (MatchesPreferredSplitPath(path, o.preferredSplitPaths) && size > preferred)
    || size > o.largeValueBytes
  }

  /** Copies the tree, replacing each string to be split by a marker; `n` chunk ids were used before. */
  function CloneAndSplit(v: Json, path: JsString, walk: seq<JsString>, o: Options, ids: ChunkIds, n: nat): Result<Tree>
    decreases v, 1, 0
  {
    match v
    case Str(text) =>
      if !ShouldSplit(path, text, ByteLength(text), o) then Success(Tree(v, []))
      else if !Splittable(CodePoints(text), o.chunkBytes) then Failure("@chunkBytes is too small - json.split")
      else Success(Tree(Marker(ids(n)), [Cut(ids(n), path, walk, text)]))
    case Node(shape, fields) =>
      var split :- SplitFields(v, path, walk, o, ids, n, |fields|);
      Success(Tree(Node(shape, split.0), split.1))
    case _ => Success(Tree(v, []))
  }

  /** The first `k` fields of a node, split from left to right. */
  function SplitFields(v: Json, path: JsString, walk: seq<JsString>, o: Options, ids: ChunkIds, n: nat, k: nat)
    : (r: Result<(seq<Field>, seq<Cut>)>)
    requires v.Node? && k <= |v.fields|
    ensures r.Success? ==> |r.value.0| == k
    decreases v, 0, k
  {
    if k == 0 then Success(([], [])) else
    var done :- SplitFields(v, path, walk, o, ids, n, k - 1);
    var field := v.fields[k - 1];
    var tree :- CloneAndSplit(field.value, FieldPath(v.shape, path, k - 1, field.name), walk + [field.name], o, ids, n + |done.1|);
    Success((done.0 + [Field(field.name, tree.root)], done.1 + tree.cuts))
  }

  function RefOf(cut: Cut, chunkBytes: int): ChunkRef
    requires Splittable(CodePoints(cut.text), chunkBytes)
  {
    ChunkRef(cut.cid, cut.path, ByteLength(cut.text), |Parts(cut.text, chunkBytes)|)
  }

  function ChunksOf(cut: Cut, chunkBytes: int): (chunks: seq<Chunk>)
    requires Splittable(CodePoints(cut.text), chunkBytes)
    ensures |chunks| == |Parts(cut.text, chunkBytes)|
  {
    var parts := Parts(cut.text, chunkBytes);
    seq(|parts|, i requires 0 <= i < |parts| => Chunk(cut.cid, i, |parts|, parts[i]))
  }

  predicate Cuttable(cuts: seq<Cut>, chunkBytes: int) {
    forall i :: 0 <= i < |cuts| ==> Splittable(CodePoints(cuts[i].text), chunkBytes)
  }

  function RefsOf(cuts: seq<Cut>, chunkBytes: int): (refs: seq<ChunkRef>)
    requires Cuttable(cuts, chunkBytes)
    ensures |refs| == |cuts|
  {
    seq(|cuts|, i requires 0 <= i < |cuts| => RefOf(cuts[i], chunkBytes))
  }

  function AllChunks(cuts: seq<Cut>, chunkBytes: int): seq<Chunk>
    requires Cuttable(cuts, chunkBytes)
  {
    if cuts == [] then [] else
    AllChunks(cuts[..|cuts| - 1], chunkBytes) + ChunksOf(cuts[|cuts| - 1], chunkBytes)
  }

  /** The manifest and chunks of a value, or the error the splitter throws. */
  function SplitJson(data: Json, o: Options, ids: ChunkIds): Result<Packed> {
    var tree :- CloneAndSplit(data, [], [], o, ids, 0);
    CutsAreCuttable(data, [], [], o, ids, 0);
    Success(Packed(tree.root, RefsOf(tree.cuts, o.chunkBytes), AllChunks(tree.cuts, o.chunkBytes)))
  }

  /** How the last of the first `k` fields extends the split of the fields before it. */
  lemma {:induction false} LastField(v: Json, path: JsString, walk: seq<JsString>, o: Options, ids: ChunkIds, n: nat, k: nat)
    returns (fields: seq<Field>, cuts: seq<Cut>, tree: Tree)
    requires v.Node? && 0 < k <= |v.fields| && SplitFields(v, path, walk, o, ids, n, k).Success?
    ensures SplitFields(v, path, walk, o, ids, n, k - 1) == Success((fields, cuts))
    ensures var field := v.fields[k - 1];
            && CloneAndSplit(field.value, FieldPath(v.shape, path, k - 1, field.name), walk + [field.name], o, ids, n + |cuts|) == Success(tree)
            && SplitFields(v, path, walk, o, ids, n, k)
               == Success((fields + [Field(field.name, tree.root)], cuts + tree.cuts))
  {
    var done := SplitFields(v, path, walk, o, ids, n, k - 1).value;
    fields, cuts := done.0, done.1;
    var field := v.fields[k - 1];
    tree := CloneAndSplit(field.value, FieldPath(v.shape, path, k - 1, field.name), walk + [field.name], o, ids, n + |cuts|).value;
  }

  /** Only strings the byte splitter accepts are cut, and each cut has its own id. */
  lemma {:induction false} CutsAreCuttable(v: Json, path: JsString, walk: seq<JsString>, o: Options, ids: ChunkIds, n: nat)
    requires CloneAndSplit(v, path, walk, o, ids, n).Success?
    ensures var cuts := CloneAndSplit(v, path, walk, o, ids, n).value.cuts;
            && Cuttable(cuts, o.chunkBytes)
            && forall i :: 0 <= i < |cuts| ==> cuts[i].cid == ids(n + i)
    decreases v, 1, 0
  {
    if v.Node? {
      FieldCutsAreCuttable(v, path, walk, o, ids, n, |v.fields|);
    }
  }

  lemma {:induction false} FieldCutsAreCuttable(v: Json, path: JsString, walk: seq<JsString>, o: Options, ids: ChunkIds, n: nat, k: nat)
    requires v.Node? && k <= |v.fields| && SplitFields(v, path, walk, o, ids, n, k).Success?
    ensures var cuts := SplitFields(v, path, walk, o, ids, n, k).value.1;
            && Cuttable(cuts, o.chunkBytes)
            && forall i :: 0 <= i < |cuts| ==> cuts[i].cid == ids(n + i)
    decreases v, 0, k
  {
    if k > 0 {
      var fields, cuts, tree := LastField(v, path, walk, o, ids, n, k);
      var field := v.fields[k - 1];
      FieldCutsAreCuttable(v, path, walk, o, ids, n, k - 1);
      CutsAreCuttable(field.value, FieldPath(v.shape, path, k - 1, field.name), walk + [field.name], o, ids, n + |cuts|);
    }
  }

  predicate Spelled(cuts: seq<Cut>) {
    forall i :: 0 <= i < |cuts| ==> SpelledCut(cuts[i])
  }

  predicate SpelledCut(cut: Cut) { Segments(cut.path) == cut.walk }

  lemma {:induction false} SpelledAppend(a: seq<Cut>, b: seq<Cut>)
    requires Spelled(a) && Spelled(b)
    ensures Spelled(a + b)
  {
  }

  /** However the field is split, the pointers of its cuts spell their walks. */
  ghost predicate FieldSpellsWalks(v: Json, path: JsString, walk: seq<JsString>, o: Options, ids: ChunkIds, i: nat, n: nat, tree: Tree)
    requires v.Node?
  {
    i < |v.fields|
    && CloneAndSplit(v.fields[i].value, FieldPath(v.shape, path, i, v.fields[i].name), walk + [v.fields[i].name], o, ids, n) == Success(tree)
    ==> Spelled(tree.cuts)
  }

  ghost predicate AllFieldsSpellWalks(v: Json, path: JsString, walk: seq<JsString>, o: Options, ids: ChunkIds)
    requires v.Node?
  {
    forall i: nat, n: nat, tree :: FieldSpellsWalks(v, path, walk, o, ids, i, n, tree)
  }

  /** The pointer of each cut spells its walk. */
  lemma {:induction false} PathsSpellWalks(v: Json, path: JsString, walk: seq<JsString>, o: Options, ids: ChunkIds, n: nat)
    requires WellFormed(v) && Segments(path) == walk && CloneAndSplit(v, path, walk, o, ids, n).Success?
    ensures Spelled(CloneAndSplit(v, path, walk, o, ids, n).value.cuts)
    decreases v, 1, 0
  {
    if v.Node? {
      EachFieldSpellsWalks(v, path, walk, o, ids);
      FieldPathsSpellWalks(v, path, walk, o, ids, n, |v.fields|);
    }
  }

  lemma {:induction false} EachFieldSpellsWalks(v: Json, path: JsString, walk: seq<JsString>, o: Options, ids: ChunkIds)
    requires WellFormed(v) && v.Node? && Segments(path) == walk
    ensures AllFieldsSpellWalks(v, path, walk, o, ids)
    decreases v, 0
  {
    forall i: nat, n: nat, tree ensures FieldSpellsWalks(v, path, walk, o, ids, i, n, tree) {
      if i < |v.fields| {
        var f := v.fields[i];
        if CloneAndSplit(f.value, FieldPath(v.shape, path, i, f.name), walk + [f.name], o, ids, n) == Success(tree) {
          FieldIsWellFormed(v, i);
          FieldPathSegments(v.shape, path, i, f.name);
          PathsSpellWalks(f.value, FieldPath(v.shape, path, i, f.name), walk + [f.name], o, ids, n);
        }
      }
    }
  }

  lemma {:induction false} FieldPathsSpellWalks(v: Json, path: JsString, walk: seq<JsString>,
                                                o: Options, ids: ChunkIds, n: nat, k: nat)
    requires v.Node? && k <= |v.fields| && AllFieldsSpellWalks(v, path, walk, o, ids)
    requires SplitFields(v, path, walk, o, ids, n, k).Success?
    ensures Spelled(SplitFields(v, path, walk, o, ids, n, k).value.1)
  {
    if k > 0 {
      var fields, cuts, tree := LastField(v, path, walk, o, ids, n, k);
      FieldPathsSpellWalks(v, path, walk, o, ids, n, k - 1);
      assert FieldSpellsWalks(v, path, walk, o, ids, k - 1, n + |cuts|, tree);
      SpelledAppend(cuts, tree.cuts);
    }
  }

  lemma {:induction false} FieldIsWellFormed(v: Json, i: nat)
    requires WellFormed(v) && v.Node? && i < |v.fields|
    ensures WellFormed(v.fields[i].value)
    ensures v.shape.Array? ==> v.fields[i].name == Decimal(i)
  {
  }

  // ---- assembling ------------------------------------------------------------------------------

  /** Received chunks by chunk id and index. */
  type Buffer = map<JsString, map<nat, Chunk>>

  predicate Filled(buffer: Buffer, ref: ChunkRef) {
    ref.cid in buffer && forall i :: 0 <= i < ref.chunks ==> i in buffer[ref.cid]
  }

  function Collected(received: map<nat, Chunk>, n: nat): (parts: seq<JsString>)
    requires forall i :: 0 <= i < n ==> i in received
    ensures |parts| == n && forall i :: 0 <= i < n ==> parts[i] == received[i].data
  {
    if n == 0 then [] else Collected(received, n - 1) + [received[n - 1].data]
  }

  /** The text of a reference whose chunks are all there. */
  function TextOf(buffer: Buffer, ref: ChunkRef): JsString
    requires Filled(buffer, ref)
  {
    Concat(Collected(buffer[ref.cid], ref.chunks))
  }

  /** The text kept for a chunk id: a later reference with the same id overrides an earlier one. */
  function TextFor(refs: seq<ChunkRef>, buffer: Buffer, cid: JsString): JsString
    requires exists i :: 0 <= i < |refs| && refs[i].cid == cid
    requires forall i :: 0 <= i < |refs| ==> Filled(buffer, refs[i])
  {
    var last := |refs| - 1;
    if refs[last].cid == cid then TextOf(buffer, refs[last]) else TextFor(refs[..last], buffer, cid)
  }

  /** Puts the texts of the first `k` references back where they point, in order. */
  function Restore(root: Json, refs: seq<ChunkRef>, buffer: Buffer, k: nat): Result<Json>
    requires k <= |refs|
    requires forall i :: 0 <= i < |refs| ==> Filled(buffer, refs[i])
  {
    if k == 0 then Success(root) else
    var done :- Restore(root, refs, buffer, k - 1);
    SetByPointer(done, refs[k - 1].path, Str(TextFor(refs, buffer, refs[k - 1].cid)))
  }

  /** None while chunks are missing; Failure when putting a text back throws. */
  function Assemble(root: Json, refs: seq<ChunkRef>, buffer: Buffer): Result<Option<Json>> {
    if exists i :: 0 <= i < |refs| && !Filled(buffer, refs[i]) then Success(None)
    else
      var v :- Restore(root, refs, buffer, |refs|);
      Success(Some(v))
  }

  // ---- assembling undoes splitting -------------------------------------------------------------

  /** A walk relative to some subtree, and the text that belongs there. */
  datatype Hole = Hole(segments: seq<JsString>, text: JsString)

  function Patch(v: Json, holes: seq<Hole>): Result<Json> {
    if holes == [] then Success(v) else
    var k := |holes| - 1;
    var done :- Patch(v, holes[..k]);
    SetAt(done, holes[k].segments, Str(holes[k].text))
  }

  predicate Under(cuts: seq<Cut>, base: seq<JsString>) {
    forall i :: 0 <= i < |cuts| ==> base <= cuts[i].walk
  }

  /** The walks of the cuts from `depth` steps down. */
  function HolesOf(cuts: seq<Cut>, depth: nat): (holes: seq<Hole>)
    ensures |holes| == |cuts|
  {
    seq(|cuts|, i requires 0 <= i < |cuts| => HoleOf(cuts[i], depth))
  }

  function HoleOf(cut: Cut, depth: nat): Hole {
    Hole(if depth <= |cut.walk| then cut.walk[depth..] else [], cut.text)
  }

  function Deeper(name: JsString, holes: seq<Hole>): (deeper: seq<Hole>)
    ensures |deeper| == |holes|
  {
    seq(|holes|, i requires 0 <= i < |holes| => Hole([name] + holes[i].segments, holes[i].text))
  }

  lemma {:induction false} PatchAppend(v: Json, a: seq<Hole>, b: seq<Hole>)
    requires Patch(v, a).Success?
    ensures Patch(v, a + b) == Patch(Patch(v, a).value, b)
  {
    if b == [] {
      assert a + b == a;
    } else {
      assert (a + b)[..|a + b| - 1] == a + b[..|b| - 1];
      PatchAppend(v, a, b[..|b| - 1]);
    }
  }

  lemma {:induction false} FieldIndexAppend(fields: seq<Field>, extra: Field, name: JsString)
    ensures FieldIndex(fields + [extra], name) ==
            if FieldIndex(fields, name) < |fields| then FieldIndex(fields, name)
            else if extra.name == name then |fields| else |fields| + 1
  {
    if fields != [] && fields[0].name != name {
      assert (fields + [extra])[1..] == fields[1..] + [extra];
      FieldIndexAppend(fields[1..], extra, name);
    }
  }

  /** Filling holes below one field works on that field alone. */
  lemma {:induction false} PatchBelow(shape: Shape, fields: seq<Field>, name: JsString, v: Json, holes: seq<Hole>)
    requires FieldIndex(fields, name) == |fields|
    requires Patch(v, holes).Success?
    ensures Patch(Node(shape, fields + [Field(name, v)]), Deeper(name, holes))
         == Success(Node(shape, fields + [Field(name, Patch(v, holes).value)]))
  {
    if holes != [] {
      var k := |holes| - 1;
      var inner := Patch(v, holes[..k]).value;
      PatchBelow(shape, fields, name, v, holes[..k]);
      assert Deeper(name, holes)[..k] == Deeper(name, holes[..k]);
      var node := Node(shape, fields + [Field(name, inner)]);
      FieldIndexAppend(fields, Field(name, inner), name);
      var segments := Deeper(name, holes)[k].segments;
      assert segments[1..] == holes[k].segments;
      var patched := SetAt(inner, holes[k].segments, Str(holes[k].text)).value;
      assert node.fields[|fields| := Field(name, patched)] == fields + [Field(name, patched)];
    }
  }

  predicate Inside(fields: seq<Field>, holes: seq<Hole>) {
    forall i :: 0 <= i < |holes| ==> IsInside(fields, holes[i])
  }

  predicate IsInside(fields: seq<Field>, hole: Hole) {
    hole.segments != [] && FieldIndex(fields, hole.segments[0]) < |fields|
  }

  predicate SameNames(a: seq<Field>, b: seq<Field>) {
    |a| == |b| && forall i :: 0 <= i < |a| ==> a[i].name == b[i].name
  }

  lemma {:induction false} SameNamesSameIndex(a: seq<Field>, b: seq<Field>, name: JsString)
    requires SameNames(a, b)
    ensures FieldIndex(a, name) == FieldIndex(b, name)
  {
    if a != [] && a[0].name != name {
      SameNamesSameIndex(a[1..], b[1..], name);
    }
  }

  /** Filling holes inside some fields leaves a further field as it is. */
  lemma {:induction false} PatchBefore(shape: Shape, fields: seq<Field>, extra: Field, holes: seq<Hole>)
    requires Inside(fields, holes) && Patch(Node(shape, fields), holes).Success?
    ensures var patched := Patch(Node(shape, fields), holes).value;
            && patched.Node? && patched.shape == shape && SameNames(patched.fields, fields)
            && Patch(Node(shape, fields + [extra]), holes) == Success(Node(shape, patched.fields + [extra]))
  {
    if holes != [] {
      var k := |holes| - 1;
      PatchBefore(shape, fields, extra, holes[..k]);
      assert IsInside(fields, holes[k]);
      var done := Patch(Node(shape, fields), holes[..k]).value;
      var name := holes[k].segments[0];
      SameNamesSameIndex(done.fields, fields, name);
      FieldIndexAppend(done.fields, extra, name);
      var i := FieldIndex(done.fields, name);
      var inner := SetAt(done.fields[i].value, holes[k].segments[1..], Str(holes[k].text)).value;
      assert (done.fields + [extra])[i := Field(name, inner)] == done.fields[i := Field(name, inner)] + [extra];
    }
  }

  /** Each cut left its own marker behind, at its pointer without the first `depth` steps. */
  predicate Marked(root: Json, cuts: seq<Cut>, depth: nat) {
    forall i :: 0 <= i < |cuts| ==> CutIsMarked(root, cuts[i], depth)
  }

  predicate CutIsMarked(root: Json, cut: Cut, depth: nat) {
    GetAt(root, HoleOf(cut, depth).segments) == Some(Marker(cut.cid))
  }

  /** The cuts lie below `base` and are marked, and filling the holes of the tree with their texts gives `v`. */
  predicate Undone(v: Json, base: seq<JsString>, tree: Tree) {
    && Under(tree.cuts, base)
    && Marked(tree.root, tree.cuts, |base|)
    && Patch(tree.root, HolesOf(tree.cuts, |base|)) == Success(v)
    && (v.Node? ==> forall i :: 0 <= i < |tree.cuts| ==> tree.cuts[i].walk != [])
  }

  /** However the field is split, filling the holes gives the field back. */
  ghost predicate FieldUndone(v: Json, path: JsString, walk: seq<JsString>, o: Options, ids: ChunkIds, i: nat, n: nat, tree: Tree)
    requires v.Node?
  {
    i < |v.fields|
    && CloneAndSplit(v.fields[i].value, FieldPath(v.shape, path, i, v.fields[i].name), walk + [v.fields[i].name], o, ids, n) == Success(tree)
    ==> Undone(v.fields[i].value, walk + [v.fields[i].name], tree)
  }

  ghost predicate AllFieldsUndone(v: Json, path: JsString, walk: seq<JsString>, o: Options, ids: ChunkIds)
    requires v.Node?
  {
    forall i: nat, n: nat, tree :: FieldUndone(v, path, walk, o, ids, i, n, tree)
  }

  /** Filling the holes of a split tree with the texts that were cut gives the original tree. */
  lemma {:induction false} PatchUndoesSplit(v: Json, path: JsString, walk: seq<JsString>, o: Options, ids: ChunkIds, n: nat)
    returns (tree: Tree)
    requires WellFormed(v) && CloneAndSplit(v, path, walk, o, ids, n).Success?
    ensures CloneAndSplit(v, path, walk, o, ids, n) == Success(tree) && Undone(v, walk, tree)
    decreases v, 1
  {
    tree := CloneAndSplit(v, path, walk, o, ids, n).value;
    match v
    case Node(shape, fields) =>
      EachFieldUndone(v, path, walk, o, ids);
      var split, cuts := PatchUndoesFields(v, path, walk, o, ids, n, |fields|);
      assert fields[..|fields|] == fields;
    case Str(text) =>
      if tree.cuts != [] {
        var holes := HolesOf(tree.cuts, |walk|);
        assert walk[|walk|..] == [];
        assert holes == [Hole([], text)] && holes[..0] == [];
        assert HoleOf(tree.cuts[0], |walk|) == holes[0];
      }
    case _ =>
  }

  lemma {:induction false} EachFieldUndone(v: Json, path: JsString, walk: seq<JsString>, o: Options, ids: ChunkIds)
    requires WellFormed(v) && v.Node?
    ensures AllFieldsUndone(v, path, walk, o, ids)
    decreases v, 0
  {
    forall i: nat, n: nat, tree ensures FieldUndone(v, path, walk, o, ids, i, n, tree) {
      if i < |v.fields| {
        var f := v.fields[i];
        if CloneAndSplit(f.value, FieldPath(v.shape, path, i, f.name), walk + [f.name], o, ids, n) == Success(tree) {
          FieldIsWellFormed(v, i);
          var undone := PatchUndoesSplit(f.value, FieldPath(v.shape, path, i, f.name), walk + [f.name], o, ids, n);
        }
      }
    }
  }

  /** The cuts below the first `k` fields, put back, give the first `k` original fields. */
  predicate FieldsUndone(v: Json, base: seq<JsString>, k: nat, fields: seq<Field>, cuts: seq<Cut>)
    requires v.Node? && k <= |v.fields|
  {
    && SameNames(fields, v.fields[..k])
    && Under(cuts, base)
    && Marked(Node(v.shape, fields), cuts, |base|)
    && Inside(fields, HolesOf(cuts, |base|))
    && Patch(Node(v.shape, fields), HolesOf(cuts, |base|)) == Success(Node(v.shape, v.fields[..k]))
    && (forall i :: 0 <= i < |cuts| ==> cuts[i].walk != [])
  }

  lemma {:induction false} PatchUndoesFields(v: Json, path: JsString, walk: seq<JsString>,
                                             o: Options, ids: ChunkIds, n: nat, k: nat)
    returns (fields: seq<Field>, cuts: seq<Cut>)
    requires WellFormed(v) && v.Node? && k <= |v.fields| && SplitFields(v, path, walk, o, ids, n, k).Success?
    requires AllFieldsUndone(v, path, walk, o, ids)
    ensures SplitFields(v, path, walk, o, ids, n, k) == Success((fields, cuts))
    ensures FieldsUndone(v, walk, k, fields, cuts)
  {
    if k == 0 {
      fields, cuts := [], [];
      NoFields(v, walk);
    } else {
      var tree;
      fields, cuts, tree := LastField(v, path, walk, o, ids, n, k);
      assert FieldsUndone(v, walk, k - 1, fields, cuts) by {
        var done, doneCuts := PatchUndoesFields(v, path, walk, o, ids, n, k - 1);
      }
      assert FieldUndone(v, path, walk, o, ids, k - 1, n + |cuts|, tree);
      fields, cuts := NextField(v, walk, walk + [v.fields[k - 1].name], k, fields, cuts, tree);
    }
  }

  lemma {:induction false} NoFields(v: Json, base: seq<JsString>)
    requires v.Node?
    ensures FieldsUndone(v, base, 0, [], [])
  {
    assert v.fields[..0] == [];
  }

  lemma {:induction false} NextField(v: Json, base: seq<JsString>, below: seq<JsString>, k: nat,
                                     fields: seq<Field>, cuts: seq<Cut>, tree: Tree) returns (fields': seq<Field>, cuts': seq<Cut>)
    requires WellFormed(v) && v.Node? && 0 < k <= |v.fields| && FieldsUndone(v, base, k - 1, fields, cuts)
    requires below == base + [v.fields[k - 1].name] && Undone(v.fields[k - 1].value, below, tree)
    ensures fields' == fields + [Field(v.fields[k - 1].name, tree.root)] && cuts' == cuts + tree.cuts
    ensures FieldsUndone(v, base, k, fields', cuts')
  {
    fields', cuts' := fields + [Field(v.fields[k - 1].name, tree.root)], cuts + tree.cuts;
    NewField(v, k);
    OneMoreField(v, base, k, fields, cuts, tree);
  }

  lemma {:induction false} OneMoreField(v: Json, base: seq<JsString>, k: nat, fields: seq<Field>, cuts: seq<Cut>, tree: Tree)
    requires v.Node? && 0 < k <= |v.fields| && FieldsUndone(v, base, k - 1, fields, cuts)
    requires FieldIndex(v.fields[..k - 1], v.fields[k - 1].name) == k - 1
    requires Undone(v.fields[k - 1].value, base + [v.fields[k - 1].name], tree)
    ensures FieldsUndone(v, base, k, fields + [Field(v.fields[k - 1].name, tree.root)], cuts + tree.cuts)
  {
    var name := v.fields[k - 1].name;
    SameNamesSameIndex(fields, v.fields[..k - 1], name);
    SameNamesAppend(v.fields, k, fields, Field(name, tree.root));
    assert |base + [name]| == |base| + 1;
    OneMorePatched(v, base, k, fields, cuts, tree);
    HolesBelow(tree.cuts, base, name);
    BothMarked(v.shape, fields, cuts, Field(name, tree.root), tree.cuts, |base|);
    BothUnder(cuts, tree.cuts, base);
  }

  lemma {:induction false} SameNamesAppend(all: seq<Field>, k: nat, fields: seq<Field>, extra: Field)
    requires 0 < k <= |all| && SameNames(fields, all[..k - 1]) && extra.name == all[k - 1].name
    ensures SameNames(fields + [extra], all[..k])
  {
  }

  lemma {:induction false} OneMorePatched(v: Json, base: seq<JsString>, k: nat, fields: seq<Field>, cuts: seq<Cut>, tree: Tree)
    requires v.Node? && 0 < k <= |v.fields|
    requires FieldIndex(v.fields[..k - 1], v.fields[k - 1].name) == k - 1
    requires FieldIndex(fields, v.fields[k - 1].name) == |fields|
    requires Inside(fields, HolesOf(cuts, |base|))
    requires Patch(Node(v.shape, fields), HolesOf(cuts, |base|)) == Success(Node(v.shape, v.fields[..k - 1]))
    requires Under(tree.cuts, base + [v.fields[k - 1].name])
    requires Patch(tree.root, HolesOf(tree.cuts, |base| + 1)) == Success(v.fields[k - 1].value)
    ensures var more, all := fields + [Field(v.fields[k - 1].name, tree.root)], cuts + tree.cuts;
            && Patch(Node(v.shape, more), HolesOf(all, |base|)) == Success(Node(v.shape, v.fields[..k]))
            && Inside(more, HolesOf(all, |base|))
  {
    var name, holes, below := v.fields[k - 1].name, HolesOf(cuts, |base|), HolesOf(tree.cuts, |base| + 1);
    HolesBelow(tree.cuts, base, name);
    HolesAppend(cuts, tree.cuts, |base|);
    AddField(v, k, fields, holes, tree.root, below);
    InsideBoth(fields, holes, Field(name, tree.root), below);
  }

  lemma {:induction false} BothMarked(shape: Shape, fields: seq<Field>, cuts: seq<Cut>, extra: Field, below: seq<Cut>, depth: nat)
    requires FieldIndex(fields, extra.name) == |fields|
    requires Marked(Node(shape, fields), cuts, depth) && Inside(fields, HolesOf(cuts, depth))
    requires Marked(extra.value, below, depth + 1)
    requires HolesOf(below, depth) == Deeper(extra.name, HolesOf(below, depth + 1))
    ensures Marked(Node(shape, fields + [extra]), cuts + below, depth)
  {
    var root, both := Node(shape, fields + [extra]), cuts + below;
    forall i | 0 <= i < |both| ensures CutIsMarked(root, both[i], depth) {
      if i < |cuts| {
        EarlierIsMarked(shape, fields, cuts, extra, depth, i);
      } else {
        LaterIsMarked(shape, fields, below, extra, depth, i - |cuts|);
      }
    }
  }

  lemma {:induction false} EarlierIsMarked(shape: Shape, fields: seq<Field>, cuts: seq<Cut>, extra: Field, depth: nat, i: nat)
    requires i < |cuts| && CutIsMarked(Node(shape, fields), cuts[i], depth) && Inside(fields, HolesOf(cuts, depth))
    ensures CutIsMarked(Node(shape, fields + [extra]), cuts[i], depth)
  {
    assert IsInside(fields, HolesOf(cuts, depth)[i]);
    FieldIndexAppend(fields, extra, HoleOf(cuts[i], depth).segments[0]);
  }

  lemma {:induction false} LaterIsMarked(shape: Shape, fields: seq<Field>, below: seq<Cut>, extra: Field, depth: nat, i: nat)
    requires FieldIndex(fields, extra.name) == |fields|
    requires i < |below| && CutIsMarked(extra.value, below[i], depth + 1)
    requires HolesOf(below, depth) == Deeper(extra.name, HolesOf(below, depth + 1))
    ensures CutIsMarked(Node(shape, fields + [extra]), below[i], depth)
  {
    assert HolesOf(below, depth)[i] == Deeper(extra.name, HolesOf(below, depth + 1))[i];
    FieldIndexAppend(fields, extra, extra.name);
    assert HoleOf(below[i], depth).segments[1..] == HoleOf(below[i], depth + 1).segments;
  }

  lemma {:induction false} BothUnder(a: seq<Cut>, b: seq<Cut>, base: seq<JsString>)
    requires Under(a, base) && Under(b, base)
    ensures Under(a + b, base)
  {
  }

  lemma {:induction false} HolesAppend(a: seq<Cut>, b: seq<Cut>, depth: nat)
    ensures HolesOf(a + b, depth) == HolesOf(a, depth) + HolesOf(b, depth)
  {
  }

  lemma {:induction false} NewField(v: Json, k: nat)
    requires WellFormed(v) && v.Node? && 0 < k <= |v.fields|
    ensures FieldIndex(v.fields[..k - 1], v.fields[k - 1].name) == k - 1
  {
    NamesAreDistinct(v);
  }

  lemma {:induction false} InsideBoth(fields: seq<Field>, holes: seq<Hole>, extra: Field, below: seq<Hole>)
    requires Inside(fields, holes) && FieldIndex(fields, extra.name) == |fields|
    ensures Inside(fields + [extra], holes + Deeper(extra.name, below))
  {
    var more, deeper := fields + [extra], Deeper(extra.name, below);
    forall i | 0 <= i < |holes| ensures IsInside(more, holes[i]) {
      assert IsInside(fields, holes[i]);
      FieldIndexAppend(fields, extra, holes[i].segments[0]);
    }
    forall i | 0 <= i < |deeper| ensures IsInside(more, deeper[i]) {
      FieldIndexAppend(fields, extra, extra.name);
    }
  }

  lemma {:induction false} HolesBelow(cuts: seq<Cut>, base: seq<JsString>, name: JsString)
    requires Under(cuts, base + [name])
    ensures Under(cuts, base) && HolesOf(cuts, |base|) == Deeper(name, HolesOf(cuts, |base| + 1))
    ensures forall i :: 0 <= i < |cuts| ==> cuts[i].walk != []
  {
    forall i | 0 <= i < |cuts|
      ensures base <= cuts[i].walk
      ensures cuts[i].walk[|base|..] == [name] + cuts[i].walk[|base| + 1..]
    {
      var segments := cuts[i].walk;
      assert segments[..|base| + 1] == base + [name];
      assert segments[|base|] == (base + [name])[|base|];
    }
  }

  /** One more field: the earlier holes are filled first, then the holes below the new field. */
  lemma {:induction false} AddField(v: Json, k: nat, fields: seq<Field>, holes: seq<Hole>, split: Json, below: seq<Hole>)
    requires v.Node? && 0 < k <= |v.fields|
    requires FieldIndex(v.fields[..k - 1], v.fields[k - 1].name) == k - 1
    requires Inside(fields, holes)
    requires Patch(Node(v.shape, fields), holes) == Success(Node(v.shape, v.fields[..k - 1]))
    requires Patch(split, below) == Success(v.fields[k - 1].value)
    ensures var name := v.fields[k - 1].name;
            Patch(Node(v.shape, fields + [Field(name, split)]), holes + Deeper(name, below))
            == Success(Node(v.shape, v.fields[..k]))
  {
    var name := v.fields[k - 1].name;
    var node, later := Node(v.shape, fields + [Field(name, split)]), Deeper(name, below);
    var half := Node(v.shape, v.fields[..k - 1] + [Field(name, split)]);
    assert Patch(node, holes) == Success(half) by {
      PatchBefore(v.shape, fields, Field(name, split), holes);
    }
    assert Patch(node, holes + later) == Patch(half, later) by {
      PatchAppend(node, holes, later);
    }
    PatchBelow(v.shape, v.fields[..k - 1], name, split, below);
    assert v.fields[..k] == v.fields[..k - 1] + [Field(name, v.fields[k - 1].value)];
  }

  /** The buffer holds all these chunks. */
  predicate Holds(buffer: Buffer, chunks: seq<Chunk>) {
    forall i :: 0 <= i < |chunks| ==> HasChunk(buffer, chunks[i])
  }

  predicate HasChunk(buffer: Buffer, c: Chunk) {
    c.cid in buffer && c.index in buffer[c.cid] && buffer[c.cid][c.index] == c
  }

  /** Everything in the buffer is one of these chunks, filed under its own id and index. */
  predicate OnlyFrom(buffer: Buffer, chunks: seq<Chunk>) {
    forall cid, i :: cid in buffer && i in buffer[cid] ==> IsFiled(chunks, cid, i, buffer[cid][i])
  }

  predicate IsFiled(chunks: seq<Chunk>, cid: JsString, index: nat, c: Chunk) {
    c.cid == cid && c.index == index && c in chunks
  }

  lemma {:induction false} AllChunksIncludes(cuts: seq<Cut>, chunkBytes: int, i: nat, j: nat) returns (k: nat)
    requires Cuttable(cuts, chunkBytes) && i < |cuts| && j < |Parts(cuts[i].text, chunkBytes)|
    ensures k < |AllChunks(cuts, chunkBytes)|
    ensures AllChunks(cuts, chunkBytes)[k]
         == Chunk(cuts[i].cid, j, |Parts(cuts[i].text, chunkBytes)|, Parts(cuts[i].text, chunkBytes)[j])
  {
    var last := |cuts| - 1;
    if i == last {
      k := |AllChunks(cuts[..last], chunkBytes)| + j;
    } else {
      k := AllChunksIncludes(cuts[..last], chunkBytes, i, j);
    }
  }

  lemma {:induction false} AllChunksOnly(cuts: seq<Cut>, chunkBytes: int, k: nat) returns (i: nat, j: nat)
    requires Cuttable(cuts, chunkBytes) && k < |AllChunks(cuts, chunkBytes)|
    ensures i < |cuts| && j < |Parts(cuts[i].text, chunkBytes)|
    ensures AllChunks(cuts, chunkBytes)[k]
         == Chunk(cuts[i].cid, j, |Parts(cuts[i].text, chunkBytes)|, Parts(cuts[i].text, chunkBytes)[j])
  {
    var last := |cuts| - 1;
    if k < |AllChunks(cuts[..last], chunkBytes)| {
      i, j := AllChunksOnly(cuts[..last], chunkBytes, k);
    } else {
      i, j := last, k - |AllChunks(cuts[..last], chunkBytes)|;
    }
  }

  lemma {:induction false} PartArrived(cuts: seq<Cut>, chunkBytes: int, buffer: Buffer, i: nat, j: nat)
    requires Cuttable(cuts, chunkBytes) && i < |cuts| && j < |Parts(cuts[i].text, chunkBytes)|
    requires Holds(buffer, AllChunks(cuts, chunkBytes))
    ensures cuts[i].cid in buffer && j in buffer[cuts[i].cid]
    ensures buffer[cuts[i].cid][j].data == Parts(cuts[i].text, chunkBytes)[j]
  {
    var k := AllChunksIncludes(cuts, chunkBytes, i, j);
    assert HasChunk(buffer, AllChunks(cuts, chunkBytes)[k]);
  }

  /** A reference whose chunks all arrived yields the text that was cut. */
  lemma {:induction false} TextIsRecovered(cuts: seq<Cut>, chunkBytes: int, buffer: Buffer, i: nat)
    requires Cuttable(cuts, chunkBytes) && i < |cuts| && Holds(buffer, AllChunks(cuts, chunkBytes))
    ensures Filled(buffer, RefOf(cuts[i], chunkBytes))
    ensures TextOf(buffer, RefOf(cuts[i], chunkBytes)) == cuts[i].text
  {
    var parts := Parts(cuts[i].text, chunkBytes);
    PartsAreFaithful(cuts[i].text, chunkBytes);
    PartArrived(cuts, chunkBytes, buffer, i, 0);
    var received := buffer[cuts[i].cid];
    forall j | 0 <= j < |parts| ensures j in received && received[j].data == parts[j] {
      PartArrived(cuts, chunkBytes, buffer, i, j);
    }
    assert Collected(received, |parts|) == parts;
  }

  lemma {:induction false} TextForDistinct(refs: seq<ChunkRef>, buffer: Buffer, i: nat)
    requires i < |refs| && forall j :: 0 <= j < |refs| ==> Filled(buffer, refs[j])
    requires forall j, k :: 0 <= j < k < |refs| ==> refs[j].cid != refs[k].cid
    ensures TextFor(refs, buffer, refs[i].cid) == TextOf(buffer, refs[i])
  {
    var last := |refs| - 1;
    if i < last {
      assert refs[..last][i] == refs[i];
      TextForDistinct(refs[..last], buffer, i);
    }
  }

  lemma {:induction false} RestoredText(cuts: seq<Cut>, chunkBytes: int, buffer: Buffer, i: nat)
    requires Cuttable(cuts, chunkBytes) && Holds(buffer, AllChunks(cuts, chunkBytes)) && i < |cuts|
    requires forall j, k :: 0 <= j < k < |cuts| ==> cuts[j].cid != cuts[k].cid
    requires forall j :: 0 <= j < |cuts| ==> Filled(buffer, RefsOf(cuts, chunkBytes)[j])
    ensures TextFor(RefsOf(cuts, chunkBytes), buffer, RefsOf(cuts, chunkBytes)[i].cid) == cuts[i].text
  {
    TextIsRecovered(cuts, chunkBytes, buffer, i);
    TextForDistinct(RefsOf(cuts, chunkBytes), buffer, i);
  }

  /** With every chunk there, restoring references is filling holes. */
  lemma {:induction false} RestoreIsPatch(root: Json, cuts: seq<Cut>, refs: seq<ChunkRef>, buffer: Buffer, k: nat)
    requires |refs| == |cuts| && k <= |cuts|
    requires forall i :: 0 <= i < |cuts| ==> Filled(buffer, refs[i])
    requires forall i :: 0 <= i < |cuts| ==> Segments(refs[i].path) == cuts[i].walk != []
    requires forall i :: 0 <= i < |cuts| ==> TextFor(refs, buffer, refs[i].cid) == cuts[i].text
    ensures Restore(root, refs, buffer, k) == Patch(root, HolesOf(cuts, 0)[..k])
  {
    if k > 0 {
      var holes := HolesOf(cuts, 0);
      RestoreIsPatch(root, cuts, refs, buffer, k - 1);
      assert holes[..k][..k - 1] == holes[..k - 1];
      assert holes[k - 1] == Hole(cuts[k - 1].walk, TextFor(refs, buffer, refs[k - 1].cid));
    }
  }

  lemma {:induction false} RestoreUndoesCuts(data: Json, tree: Tree, chunkBytes: int, buffer: Buffer)
    requires Cuttable(tree.cuts, chunkBytes) && Holds(buffer, AllChunks(tree.cuts, chunkBytes))
    requires forall i, j :: 0 <= i < j < |tree.cuts| ==> tree.cuts[i].cid != tree.cuts[j].cid
    requires Spelled(tree.cuts) && forall i :: 0 <= i < |tree.cuts| ==> tree.cuts[i].walk != []
    requires Patch(tree.root, HolesOf(tree.cuts, 0)) == Success(data)
    ensures var refs := RefsOf(tree.cuts, chunkBytes);
            && (forall i :: 0 <= i < |refs| ==> Filled(buffer, refs[i]))
            && Restore(tree.root, refs, buffer, |refs|) == Success(data)
  {
    var refs := RefsOf(tree.cuts, chunkBytes);
    forall i | 0 <= i < |refs| ensures Filled(buffer, refs[i]) {
      TextIsRecovered(tree.cuts, chunkBytes, buffer, i);
    }
    forall i | 0 <= i < |refs| ensures TextFor(refs, buffer, refs[i].cid) == tree.cuts[i].text {
      RestoredText(tree.cuts, chunkBytes, buffer, i);
    }
    forall i | 0 <= i < |refs| ensures Segments(refs[i].path) == tree.cuts[i].walk {
      assert SpelledCut(tree.cuts[i]);
    }
    RestoreIsPatch(tree.root, tree.cuts, refs, buffer, |tree.cuts|);
    assert HolesOf(tree.cuts, 0)[..|tree.cuts|] == HolesOf(tree.cuts, 0);
  }

  /** For every JSON object or array and every split decision: with all chunks there, assembling gives the value back. */
  lemma {:induction false} AssembleUndoesSplit(data: Json, o: Options, ids: ChunkIds, buffer: Buffer)
    requires WellFormed(data) && Distinct(ids) && SplitJson(data, o, ids).Success?
    requires data.Node?
    requires Holds(buffer, SplitJson(data, o, ids).value.chunks)
    ensures var packed := SplitJson(data, o, ids).value;
            Assemble(packed.root, packed.refs, buffer) == Success(Some(data))
  {
    CutsAreCuttable(data, [], [], o, ids, 0);
    PathsSpellWalks(data, [], [], o, ids, 0);
    var tree := PatchUndoesSplit(data, [], [], o, ids, 0);
    RestoreUndoesCuts(data, tree, o.chunkBytes, buffer);
  }

  /** A buffer of genuine chunks that fills a reference holds every chunk of that reference. */
  lemma {:induction false} FilledMeansHeld(cuts: seq<Cut>, chunkBytes: int, buffer: Buffer, k: nat)
    requires Cuttable(cuts, chunkBytes) && k < |AllChunks(cuts, chunkBytes)|
    requires forall i, j :: 0 <= i < j < |cuts| ==> cuts[i].cid != cuts[j].cid
    requires OnlyFrom(buffer, AllChunks(cuts, chunkBytes))
    requires forall i :: 0 <= i < |cuts| ==> Filled(buffer, RefOf(cuts[i], chunkBytes))
    ensures HasChunk(buffer, AllChunks(cuts, chunkBytes)[k])
  {
    var chunks := AllChunks(cuts, chunkBytes);
    var i, j := AllChunksOnly(cuts, chunkBytes, k);
    assert Filled(buffer, RefOf(cuts[i], chunkBytes));
    var c := buffer[cuts[i].cid][j];
    assert IsFiled(chunks, cuts[i].cid, j, c);
    var k' :| 0 <= k' < |chunks| && chunks[k'] == c;
    var i', j' := AllChunksOnly(cuts, chunkBytes, k');
    assert i' == i;
  }

  /** While a chunk is missing, and nothing foreign is buffered, nothing is assembled. */
  lemma {:induction false} NothingAssembledBeforeTheLastChunk(data: Json, o: Options, ids: ChunkIds, buffer: Buffer)
    requires Distinct(ids) && SplitJson(data, o, ids).Success?
    requires var packed := SplitJson(data, o, ids).value;
             OnlyFrom(buffer, packed.chunks) && !Holds(buffer, packed.chunks)
    ensures var packed := SplitJson(data, o, ids).value;
            Assemble(packed.root, packed.refs, buffer) == Success(None)
  {
    var packed := SplitJson(data, o, ids).value;
    var cuts := CloneAndSplit(data, [], [], o, ids, 0).value.cuts;
    CutsAreCuttable(data, [], [], o, ids, 0);
    var k :| 0 <= k < |packed.chunks| && !HasChunk(buffer, packed.chunks[k]);
    if forall i :: 0 <= i < |packed.refs| ==> Filled(buffer, packed.refs[i]) {
      forall i | 0 <= i < |cuts| ensures Filled(buffer, RefOf(cuts[i], o.chunkBytes)) {
        assert Filled(buffer, packed.refs[i]);
      }
      FilledMeansHeld(cuts, o.chunkBytes, buffer, k);
    }
  }

  /** A bare string that is itself split cannot be put back: its reference has no pointer to set. */
  lemma {:induction false} SplitRootStringCannotBeAssembled(text: JsString, o: Options, ids: ChunkIds, buffer: Buffer)
    requires SplitJson(Str(text), o, ids).Success?
    requires ShouldSplit([], text, ByteLength(text), o)
    requires Holds(buffer, SplitJson(Str(text), o, ids).value.chunks)
    ensures var packed := SplitJson(Str(text), o, ids).value;
            Assemble(packed.root, packed.refs, buffer).Failure?
  {
    var packed := SplitJson(Str(text), o, ids).value;
    var cuts := CloneAndSplit(Str(text), [], [], o, ids, 0).value.cuts;
    TextIsRecovered(cuts, o.chunkBytes, buffer, 0);
    assert Segments([]) == [];
    assert Restore(packed.root, packed.refs, buffer, 0).Success?;
  }

  /** The value comes back from all its chunks if and only if it is no string, or one that is not split. */
  lemma {:induction false} WhenRootIsPutBack(data: Json, o: Options, ids: ChunkIds, buffer: Buffer)
    requires WellFormed(data) && Distinct(ids) && SplitJson(data, o, ids).Success?
    requires Holds(buffer, SplitJson(data, o, ids).value.chunks)
    ensures var packed := SplitJson(data, o, ids).value;
            Assemble(packed.root, packed.refs, buffer) == Success(Some(data)) <==>
              !(data.Str? && ShouldSplit([], data.s, ByteLength(data.s), o))
  {
    if data.Node? {
      AssembleUndoesSplit(data, o, ids, buffer);
    } else if data.Str? && ShouldSplit([], data.s, ByteLength(data.s), o) {
      SplitRootStringCannotBeAssembled(data.s, o, ids, buffer);
    } else {
      assert CloneAndSplit(data, [], [], o, ids, 0) == Success(Tree(data, []));
    }
  }

  // ---- what a receiver may rely on -------------------------------------------------------------

  predicate DistinctRefs(refs: seq<ChunkRef>) {
    forall i, j :: 0 <= i < j < |refs| ==> refs[i].cid != refs[j].cid
  }

  predicate RefIsMarked(root: Json, ref: ChunkRef) { IsMarkerFor(GetByPointer(root, ref.path), ref.cid) }

  /** Distinct chunk ids, each with its own marker where its pointer leads. */
  predicate ValidManifest(root: Json, refs: seq<ChunkRef>) {
    DistinctRefs(refs) && forall i :: 0 <= i < |refs| ==> RefIsMarked(root, refs[i])
  }

  predicate ChunkFits(refs: seq<ChunkRef>, c: Chunk) {
    exists i :: 0 <= i < |refs| && refs[i].cid == c.cid && refs[i].chunks == c.total && c.index < c.total
  }

  predicate SizeMatches(buffer: Buffer, ref: ChunkRef) {
    Filled(buffer, ref) ==> ByteLength(TextOf(buffer, ref)) == ref.size
  }

  /** Every reference counts at least one chunk. */
  predicate RefsCount(refs: seq<ChunkRef>) { forall i :: 0 <= i < |refs| ==> refs[i].chunks > 0 }

  /** Everything the receiving side needs to know about the packets of one value. */
  ghost predicate Genuine(p: Packed, data: Json) {
    && data.Node?
    && ValidManifest(p.root, p.refs)
    && ChunksMatch(p.refs, p.chunks)
    && RefsCount(p.refs)
    && (forall b: Buffer {:trigger OnlyFrom(b, p.chunks)} :: OnlyFrom(b, p.chunks) ==> GoodBuffer(p, data, b))
  }

  /** Chunks fit the references, no two share a place, and every place of every reference has one. */
  ghost predicate ChunksMatch(refs: seq<ChunkRef>, chunks: seq<Chunk>) {
    && (forall c :: c in chunks ==> ChunkFits(refs, c))
    && (forall c, d :: c in chunks && d in chunks && c.cid == d.cid && c.index == d.index ==> c == d)
    && (forall i, j :: 0 <= i < |refs| && 0 <= j < refs[i].chunks ==> HasPart(chunks, refs[i].cid, j))
  }

  predicate HasPart(chunks: seq<Chunk>, cid: JsString, index: nat) {
    exists c :: c in chunks && c.cid == cid && c.index == index
  }

  /** A buffer of this value's chunks passes the size check, and assembles to the value once complete, not before. */
  predicate GoodBuffer(p: Packed, data: Json, b: Buffer) {
    && (forall i :: 0 <= i < |p.refs| ==> SizeMatches(b, p.refs[i]))
    && Assemble(p.root, p.refs, b) == Success(if Holds(b, p.chunks) then Some(data) else None)
  }

  lemma {:induction false} GenuineTextIsRecovered(cuts: seq<Cut>, chunkBytes: int, buffer: Buffer, i: nat)
    requires Cuttable(cuts, chunkBytes) && i < |cuts|
    requires forall i, j :: 0 <= i < j < |cuts| ==> cuts[i].cid != cuts[j].cid
    requires OnlyFrom(buffer, AllChunks(cuts, chunkBytes)) && Filled(buffer, RefOf(cuts[i], chunkBytes))
    ensures TextOf(buffer, RefOf(cuts[i], chunkBytes)) == cuts[i].text
  {
    var chunks, parts := AllChunks(cuts, chunkBytes), Parts(cuts[i].text, chunkBytes);
    var received := buffer[cuts[i].cid];
    PartsAreFaithful(cuts[i].text, chunkBytes);
    forall j | 0 <= j < |parts| ensures j in received && received[j].data == parts[j] {
      assert IsFiled(chunks, cuts[i].cid, j, received[j]);
      var k :| 0 <= k < |chunks| && chunks[k] == received[j];
      var i', j' := AllChunksOnly(cuts, chunkBytes, k);
      assert i' == i;
    }
    assert Collected(received, |parts|) == parts;
  }

  lemma {:induction false} RefsAreMarked(data: Json, o: Options, ids: ChunkIds)
    requires WellFormed(data) && SplitJson(data, o, ids).Success?
    ensures var p := SplitJson(data, o, ids).value;
            forall i :: 0 <= i < |p.refs| ==> RefIsMarked(p.root, p.refs[i])
  {
    var p := SplitJson(data, o, ids).value;
    CutsAreCuttable(data, [], [], o, ids, 0);
    PathsSpellWalks(data, [], [], o, ids, 0);
    var tree := PatchUndoesSplit(data, [], [], o, ids, 0);
    forall i | 0 <= i < |p.refs| ensures RefIsMarked(p.root, p.refs[i]) {
      var cut := tree.cuts[i];
      assert CutIsMarked(tree.root, cut, 0) && SpelledCut(cut);
      assert cut.walk[0..] == cut.walk;
      MarkerIsMarker(cut.cid);
    }
  }

  lemma {:induction false} MarkerIsMarker(cid: JsString)
    ensures IsMarkerFor(Some(Marker(cid)), cid)
  {
    assert GetAt(Marker(cid), [REF_KEY]) == GetAt(Str(cid), [REF_KEY][1..]);
  }

  lemma {:induction false} GoodBuffers(data: Json, o: Options, ids: ChunkIds, buffer: Buffer)
    requires WellFormed(data) && data.Node? && Distinct(ids) && SplitJson(data, o, ids).Success?
    requires OnlyFrom(buffer, SplitJson(data, o, ids).value.chunks)
    ensures GoodBuffer(SplitJson(data, o, ids).value, data, buffer)
  {
    var p := SplitJson(data, o, ids).value;
    var cuts := CloneAndSplit(data, [], [], o, ids, 0).value.cuts;
    CutsAreCuttable(data, [], [], o, ids, 0);
    forall i | 0 <= i < |p.refs| ensures SizeMatches(buffer, p.refs[i]) {
      if Filled(buffer, p.refs[i]) {
        GenuineTextIsRecovered(cuts, o.chunkBytes, buffer, i);
      }
    }
    if Holds(buffer, p.chunks) {
      AssembleUndoesSplit(data, o, ids, buffer);
    } else {
      NothingAssembledBeforeTheLastChunk(data, o, ids, buffer);
    }
  }

  lemma {:induction false} ChunksAndRefsAgree(cuts: seq<Cut>, chunkBytes: int)
    requires Cuttable(cuts, chunkBytes)
    requires forall i, j :: 0 <= i < j < |cuts| ==> cuts[i].cid != cuts[j].cid
    ensures ChunksMatch(RefsOf(cuts, chunkBytes), AllChunks(cuts, chunkBytes))
    ensures DistinctRefs(RefsOf(cuts, chunkBytes))
  {
    var refs, chunks := RefsOf(cuts, chunkBytes), AllChunks(cuts, chunkBytes);
    forall c | c in chunks ensures ChunkFits(refs, c) {
      var k :| 0 <= k < |chunks| && chunks[k] == c;
      var i, j := AllChunksOnly(cuts, chunkBytes, k);
      assert refs[i].cid == c.cid;
    }
    forall c, d | c in chunks && d in chunks && c.cid == d.cid && c.index == d.index ensures c == d {
      var k :| 0 <= k < |chunks| && chunks[k] == c;
      var i, j := AllChunksOnly(cuts, chunkBytes, k);
      var k' :| 0 <= k' < |chunks| && chunks[k'] == d;
      var i', j' := AllChunksOnly(cuts, chunkBytes, k');
      assert i == i';
    }
    forall i, j | 0 <= i < |refs| && 0 <= j < refs[i].chunks ensures HasPart(chunks, refs[i].cid, j) {
      var k := AllChunksIncludes(cuts, chunkBytes, i, j);
      assert chunks[k] in chunks;
    }
  }

  lemma {:induction false} PartsAgree(data: Json, o: Options, ids: ChunkIds)
    requires Distinct(ids) && SplitJson(data, o, ids).Success?
    ensures var p := SplitJson(data, o, ids).value;
            ChunksMatch(p.refs, p.chunks) && DistinctRefs(p.refs)
  {
    var cuts := CloneAndSplit(data, [], [], o, ids, 0).value.cuts;
    CutsAreCuttable(data, [], [], o, ids, 0);
    ChunksAndRefsAgree(cuts, o.chunkBytes);
  }

  lemma {:induction false} SplitIsGenuine(data: Json, o: Options, ids: ChunkIds, p: Packed)
    requires WellFormed(data) && data.Node? && Distinct(ids) && SplitJson(data, o, ids) == Success(p)
    ensures Genuine(p, data)
  {
    assert ChunksMatch(p.refs, p.chunks) && DistinctRefs(p.refs) by { PartsAgree(data, o, ids); }
    assert ValidManifest(p.root, p.refs) by { RefsAreMarked(data, o, ids); }
    assert RefsCount(p.refs) by { RefsHaveChunks(data, o, ids); }
    forall b: Buffer | OnlyFrom(b, p.chunks) ensures GoodBuffer(p, data, b) {
      GoodBuffers(data, o, ids, b);
    }
  }

  /** An empty string has a chunk, too. */
  lemma {:induction false} RefsHaveChunks(data: Json, o: Options, ids: ChunkIds)
    requires SplitJson(data, o, ids).Success?
    ensures RefsCount(SplitJson(data, o, ids).value.refs)
  {
    var cuts := CloneAndSplit(data, [], [], o, ids, 0).value.cuts;
    CutsAreCuttable(data, [], [], o, ids, 0);
    forall i | 0 <= i < |cuts| ensures RefOf(cuts[i], o.chunkBytes).chunks > 0 {
      PartsAreFaithful(cuts[i].text, o.chunkBytes);
    }
  }
}
