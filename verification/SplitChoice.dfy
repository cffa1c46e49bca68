/** Which strings of a value are cut out of it. */
module SplitChoice {
  import opened Outcomes
  import opened Text
  import opened Json
  import opened Split

  // ---- pointers ----------------------------------------------------------------------------------

  /** The JSON pointer that spells a walk (section 3 of RFC 6901). */
  function PointerTo(walk: seq<JsString>): JsString {
    if walk == [] then [] else PointerTo(walk[..|walk| - 1]) + [SLASH] + Escape(walk[|walk| - 1])
  }

  function EscapeAll(names: seq<JsString>): (segments: seq<JsString>)
    ensures |segments| == |names|
  {
    seq(|names|, i requires 0 <= i < |names| => Escape(names[i]))
  }

  lemma {:induction false} PointerSlashes(walk: seq<JsString>)
    ensures SplitSlash(PointerTo(walk)) == [[]] + EscapeAll(walk)
  {
    if walk != [] {
      var before, last := walk[..|walk| - 1], walk[|walk| - 1];
      PointerSlashes(before);
      EscapeRoundTrip(last);
      SplitSlashAppend(PointerTo(before), Escape(last));
      assert EscapeAll(walk) == EscapeAll(before) + [Escape(last)];
    }
  }

  /** The pointer that spells a walk is read as this walk. */
  lemma {:induction false} PointerRoundTrip(walk: seq<JsString>)
    ensures Segments(PointerTo(walk)) == walk
  {
    PointerSlashes(walk);
    assert SplitSlash(PointerTo(walk))[1..] == EscapeAll(walk);
    forall i | 0 <= i < |walk| ensures UnescapeAll(EscapeAll(walk))[i] == walk[i] {
      EscapeRoundTrip(walk[i]);
    }
  }

  lemma {:induction false} NoUnitToReplace(s: JsString, u: CodeUnit, with: JsString)
    requires u !in s
    ensures ReplaceUnit(s, u, with) == s
  {
    if s != [] {
      NoUnitToReplace(s[1..], u, with);
    }
  }

  /** The pointer of a field is the pointer of its parent, a slash, and the escaped name. */
  lemma {:induction false} FieldPointer(v: Json, walk: seq<JsString>, i: nat)
    requires WellFormed(v) && v.Node? && i < |v.fields|
    ensures FieldPath(v.shape, PointerTo(walk), i, v.fields[i].name) == PointerTo(walk + [v.fields[i].name])
  {
    var name := v.fields[i].name;
    FieldIsWellFormed(v, i);
    assert (walk + [name])[..|walk|] == walk;
    if v.shape.Array? {
      NoUnitToReplace(name, TILDE, [TILDE, ZERO]);
      NoUnitToReplace(name, SLASH, [TILDE, ONE]);
    }
  }

  // ---- the decision ------------------------------------------------------------------------------

  /** The pattern has a segment for each step, and each is a star or the escaped name. */
  predicate Names(pattern: JsString, walk: seq<JsString>) {
    var segments := SplitSlash(pattern)[1..];
    && |segments| == |walk|
    && forall i :: 0 <= i < |walk| ==> segments[i] == STAR || segments[i] == Escape(walk[i])
  }

  predicate IsPreferred(o: Options, walk: seq<JsString>) {
    exists i :: 0 <= i < |o.preferredSplitPaths| && Names(o.preferredSplitPaths[i], walk)
  }

  /** A string is cut when it is large, when it is at a preferred place and over both limits' lesser one, or when the
      caller's own rule says so; its size is that of its UTF-8 text. */
  predicate MustCut(o: Options, walk: seq<JsString>, text: JsString) {
    var size := |Utf8(text)|;
    || size > o.largeValueBytes
    || (IsPreferred(o, walk) && (size > o.largeValueBytes || size > o.chunkBytes))
    || o.split(PointerTo(walk), text, size)
  }

  lemma {:induction false} PreferredIs(o: Options, walk: seq<JsString>)
    ensures MatchesPreferredSplitPath(PointerTo(walk), o.preferredSplitPaths) <==> IsPreferred(o, walk)
  {
    PointerSlashes(walk);
    assert SplitSlash(PointerTo(walk))[1..] == EscapeAll(walk);
    forall i | 0 <= i < |o.preferredSplitPaths|
      ensures MatchesPattern(EscapeAll(walk), SplitSlash(o.preferredSplitPaths[i])[1..]) <==> Names(o.preferredSplitPaths[i], walk)
    {
    }
  }

  lemma {:induction false} DecisionIs(o: Options, walk: seq<JsString>, text: JsString)
    ensures ShouldSplit(PointerTo(walk), text, ByteLength(text), o) <==> MustCut(o, walk, text)
  {
    PreferredIs(o, walk);
    ByteLengthIsUtf8Length(text);
  }

  // ---- the cuts of a tree --------------------------------------------------------------------------

  predicate HasCut(cuts: seq<Cut>, walk: seq<JsString>) { exists k :: 0 <= k < |cuts| && cuts[k].walk == walk }

  /** The walk leads to a cut, or on beyond it. */
  predicate IsBelowCut(cuts: seq<Cut>, walk: seq<JsString>) { exists k :: 0 <= k < |cuts| && cuts[k].walk <= walk }

  /** `w` leads from the subtree at `base` to this string, and it must be cut. */
  predicate IsDue(v: Json, base: seq<JsString>, o: Options, w: seq<JsString>, text: JsString) {
    GetAt(v, w) == Some(Str(text)) && MustCut(o, base + w, text)
  }

  predicate IsKept(v: Json, base: seq<JsString>, o: Options, w: seq<JsString>, text: JsString) {
    GetAt(v, w) == Some(Str(text)) && !MustCut(o, base + w, text)
  }

  predicate IsRightCut(v: Json, base: seq<JsString>, o: Options, cut: Cut) {
    base <= cut.walk && IsDue(v, base, o, cut.walk[|base|..], cut.text)
  }

  predicate OnlyRightCuts(v: Json, base: seq<JsString>, o: Options, cuts: seq<Cut>) {
    forall k :: 0 <= k < |cuts| ==> IsRightCut(v, base, o, cuts[k])
  }

  ghost predicate AllDueAreCut(v: Json, base: seq<JsString>, o: Options, cuts: seq<Cut>) {
    forall w, text :: IsDue(v, base, o, w, text) ==> HasCut(cuts, base + w)
  }

  /** What is left: the strings that need not be cut, and what the markers consist of. */
  predicate IsLeft(v: Json, base: seq<JsString>, o: Options, tree: Tree, w: seq<JsString>, text: JsString) {
    GetAt(tree.root, w) == Some(Str(text)) ==> IsKept(v, base, o, w, text) || IsBelowCut(tree.cuts, base + w)
  }

  ghost predicate LeavesOnlyKept(v: Json, base: seq<JsString>, o: Options, tree: Tree) {
    forall w, text :: IsLeft(v, base, o, tree, w, text)
  }

  ghost predicate CutsRight(v: Json, base: seq<JsString>, o: Options, tree: Tree) {
    && OnlyRightCuts(v, base, o, tree.cuts)
    && AllDueAreCut(v, base, o, tree.cuts)
    && LeavesOnlyKept(v, base, o, tree)
  }

  ghost predicate FieldCutsRight(v: Json, path: JsString, walk: seq<JsString>, o: Options, ids: ChunkIds, i: nat, n: nat, tree: Tree)
    requires v.Node?
  {
    i < |v.fields|
    && CloneAndSplit(v.fields[i].value, FieldPath(v.shape, path, i, v.fields[i].name), walk + [v.fields[i].name], o, ids, n) == Success(tree)
    ==> CutsRight(v.fields[i].value, walk + [v.fields[i].name], o, tree)
  }

  ghost predicate AllFieldsCutRight(v: Json, path: JsString, walk: seq<JsString>, o: Options, ids: ChunkIds)
    requires v.Node?
  {
    forall i: nat, n: nat, tree :: FieldCutsRight(v, path, walk, o, ids, i, n, tree)
  }

  /** A string is cut if and only if it must be. */
  lemma {:induction false} SplitCutsRight(v: Json, walk: seq<JsString>, o: Options, ids: ChunkIds, n: nat)
    requires WellFormed(v) && CloneAndSplit(v, PointerTo(walk), walk, o, ids, n).Success?
    ensures CutsRight(v, walk, o, CloneAndSplit(v, PointerTo(walk), walk, o, ids, n).value)
    decreases v, 1
  {
    var tree := CloneAndSplit(v, PointerTo(walk), walk, o, ids, n).value;
    if v.Node? {
      EachFieldCutsRight(v, walk, o, ids);
      FieldsCutRight(v, walk, o, ids, n, |v.fields|);
      assert SplitFields(v, PointerTo(walk), walk, o, ids, n, |v.fields|) == Success((tree.root.fields, tree.cuts));
      NodeCutsRight(v, walk, o, tree);
    } else {
      LeafCutsRight(v, walk, o, ids, n);
    }
  }

  lemma {:induction false} EachFieldCutsRight(v: Json, walk: seq<JsString>, o: Options, ids: ChunkIds)
    requires WellFormed(v) && v.Node?
    ensures AllFieldsCutRight(v, PointerTo(walk), walk, o, ids)
    decreases v, 0
  {
    forall i: nat, n: nat, tree ensures FieldCutsRight(v, PointerTo(walk), walk, o, ids, i, n, tree) {
      if i < |v.fields| {
        FieldPointer(v, walk, i);
        FieldIsWellFormed(v, i);
        var f := v.fields[i];
        if CloneAndSplit(f.value, PointerTo(walk + [f.name]), walk + [f.name], o, ids, n) == Success(tree) {
          SplitCutsRight(f.value, walk + [f.name], o, ids, n);
        }
      }
    }
  }

  lemma {:induction false} LeafCutsRight(v: Json, walk: seq<JsString>, o: Options, ids: ChunkIds, n: nat)
    requires !v.Node? && CloneAndSplit(v, PointerTo(walk), walk, o, ids, n).Success?
    ensures CutsRight(v, walk, o, CloneAndSplit(v, PointerTo(walk), walk, o, ids, n).value)
  {
    var tree := CloneAndSplit(v, PointerTo(walk), walk, o, ids, n).value;
    assert walk + [] == walk;
    if v.Str? {
      DecisionIs(o, walk, v.s);
    }
    forall w, text | IsDue(v, walk, o, w, text) ensures HasCut(tree.cuts, walk + w) {
      assert w == [];
      assert tree.cuts[0].walk == walk + w;
    }
    forall w, text ensures IsLeft(v, walk, o, tree, w, text) {
      if GetAt(tree.root, w) == Some(Str(text)) && tree.cuts != [] {
        assert tree.cuts[0].walk <= walk + w;
      }
    }
  }

  // ---- the cuts of a node --------------------------------------------------------------------------

  /** What is due below the first `k` fields is cut, and only that; what is left in them need not be cut. */
  ghost predicate FieldsCut(v: Json, base: seq<JsString>, o: Options, k: nat, fields: seq<Field>, cuts: seq<Cut>)
    requires v.Node? && k <= |v.fields|
  {
    && |fields| == k
    && (forall i :: 0 <= i < k ==> fields[i].name == v.fields[i].name && FieldIsCut(v, base, o, i, fields[i].value, cuts))
    && OnlyRightCuts(v, base, o, cuts)
  }

  ghost predicate FieldIsCut(v: Json, base: seq<JsString>, o: Options, i: nat, root: Json, cuts: seq<Cut>)
    requires v.Node? && i < |v.fields|
  {
    var below := base + [v.fields[i].name];
    && AllDueAreCut(v.fields[i].value, below, o, cuts)
    && LeavesOnlyKept(v.fields[i].value, below, o, Tree(root, cuts))
  }

  lemma {:induction false} MoreCuts(v: Json, base: seq<JsString>, o: Options, root: Json, cuts: seq<Cut>, before: seq<Cut>, after: seq<Cut>)
    requires AllDueAreCut(v, base, o, cuts) && LeavesOnlyKept(v, base, o, Tree(root, cuts))
    ensures AllDueAreCut(v, base, o, before + cuts + after) && LeavesOnlyKept(v, base, o, Tree(root, before + cuts + after))
  {
    var all := before + cuts + after;
    assert forall k :: 0 <= k < |cuts| ==> all[|before| + k] == cuts[k];
    forall w, text | IsDue(v, base, o, w, text) ensures HasCut(all, base + w) {
      var k :| 0 <= k < |cuts| && cuts[k].walk == base + w;
      assert all[|before| + k].walk == base + w;
    }
    forall w, text ensures IsLeft(v, base, o, Tree(root, all), w, text) {
      assert IsLeft(v, base, o, Tree(root, cuts), w, text);
      if IsBelowCut(cuts, base + w) {
        var k :| 0 <= k < |cuts| && cuts[k].walk <= base + w;
        assert all[|before| + k].walk <= base + w;
      }
    }
  }

  /** What holds below a field holds below its parent. */
  lemma {:induction false} RightCutOfParent(v: Json, base: seq<JsString>, o: Options, i: nat, cut: Cut)
    requires WellFormed(v) && v.Node? && i < |v.fields|
    requires IsRightCut(v.fields[i].value, base + [v.fields[i].name], o, cut)
    ensures IsRightCut(v, base, o, cut)
  {
    var name, w := v.fields[i].name, cut.walk[|base|..];
    FieldIndexOf(v, i);
    assert cut.walk[|base|] == (base + [name])[|base|];
    assert w[0] == name && w[1..] == cut.walk[|base + [name]|..];
    assert base + w == cut.walk == base + [name] + w[1..];
    assert base <= base + [name];
  }

  lemma {:induction false} FieldIndexOf(v: Json, i: nat)
    requires WellFormed(v) && v.Node? && i < |v.fields|
    ensures FieldIndex(v.fields, v.fields[i].name) == i
  {
    NamesAreDistinct(v);
  }

  lemma {:induction false} LastFieldCutsRight(v: Json, walk: seq<JsString>, o: Options, ids: ChunkIds, n: nat, k: nat)
    returns (fields: seq<Field>, cuts: seq<Cut>, tree: Tree)
    requires v.Node? && 0 < k <= |v.fields| && AllFieldsCutRight(v, PointerTo(walk), walk, o, ids)
    requires SplitFields(v, PointerTo(walk), walk, o, ids, n, k).Success?
    ensures SplitFields(v, PointerTo(walk), walk, o, ids, n, k - 1) == Success((fields, cuts))
    ensures SplitFields(v, PointerTo(walk), walk, o, ids, n, k)
            == Success((fields + [Field(v.fields[k - 1].name, tree.root)], cuts + tree.cuts))
    ensures CutsRight(v.fields[k - 1].value, walk + [v.fields[k - 1].name], o, tree)
  {
    fields, cuts, tree := LastField(v, PointerTo(walk), walk, o, ids, n, k);
    assert FieldCutsRight(v, PointerTo(walk), walk, o, ids, k - 1, n + |cuts|, tree);
  }

  /** The split of the first `k` fields cuts what it must. */
  ghost predicate SplitOfFieldsIsRight(v: Json, walk: seq<JsString>, o: Options, ids: ChunkIds, n: nat, k: nat)
    requires v.Node? && k <= |v.fields|
  {
    forall fields, cuts :: SplitFields(v, PointerTo(walk), walk, o, ids, n, k) == Success((fields, cuts)) ==>
      FieldsCut(v, walk, o, k, fields, cuts)
  }

  lemma {:induction false} FieldsCutRight(v: Json, walk: seq<JsString>, o: Options, ids: ChunkIds, n: nat, k: nat)
    requires WellFormed(v) && v.Node? && k <= |v.fields| && AllFieldsCutRight(v, PointerTo(walk), walk, o, ids)
    requires SplitFields(v, PointerTo(walk), walk, o, ids, n, k).Success?
    ensures SplitOfFieldsIsRight(v, walk, o, ids, n, k)
  {
    if k > 0 {
      var fields, cuts, tree := LastFieldCutsRight(v, walk, o, ids, n, k);
      FieldsCutRight(v, walk, o, ids, n, k - 1);
      OneMoreFieldCut(v, walk, o, k, fields, cuts, tree);
    }
  }

  lemma {:induction false} OneMoreFieldCut(v: Json, walk: seq<JsString>, o: Options, k: nat, fields: seq<Field>, cuts: seq<Cut>, tree: Tree)
    requires WellFormed(v) && v.Node? && 0 < k <= |v.fields| && FieldsCut(v, walk, o, k - 1, fields, cuts)
    requires CutsRight(v.fields[k - 1].value, walk + [v.fields[k - 1].name], o, tree)
    ensures FieldsCut(v, walk, o, k, fields + [Field(v.fields[k - 1].name, tree.root)], cuts + tree.cuts)
  {
    var name := v.fields[k - 1].name;
    var more, all := fields + [Field(name, tree.root)], cuts + tree.cuts;
    forall i | 0 <= i < k ensures more[i].name == v.fields[i].name && FieldIsCut(v, walk, o, i, more[i].value, all) {
      if i < k - 1 {
        assert FieldIsCut(v, walk, o, i, fields[i].value, cuts);
        MoreCuts(v.fields[i].value, walk + [v.fields[i].name], o, fields[i].value, cuts, [], tree.cuts);
        assert [] + cuts + tree.cuts == all;
      } else {
        assert Tree(tree.root, tree.cuts) == tree;
        MoreCuts(v.fields[i].value, walk + [name], o, tree.root, tree.cuts, cuts, []);
        assert cuts + tree.cuts + [] == all;
      }
    }
    forall j | 0 <= j < |all| ensures IsRightCut(v, walk, o, all[j]) {
      if j >= |cuts| {
        RightCutOfParent(v, walk, o, k - 1, all[j]);
      }
    }
  }

  lemma {:induction false} NodeCutsRight(v: Json, base: seq<JsString>, o: Options, tree: Tree)
    requires WellFormed(v) && v.Node? && tree.root.Node?
    requires FieldsCut(v, base, o, |v.fields|, tree.root.fields, tree.cuts)
    ensures CutsRight(v, base, o, tree)
  {
    forall w, text | IsDue(v, base, o, w, text) ensures HasCut(tree.cuts, base + w) {
      var i := FieldIndex(v.fields, w[0]);
      assert FieldIsCut(v, base, o, i, tree.root.fields[i].value, tree.cuts);
      assert base + w == base + [v.fields[i].name] + w[1..];
      assert IsDue(v.fields[i].value, base + [v.fields[i].name], o, w[1..], text);
    }
    forall w, text ensures IsLeft(v, base, o, tree, w, text) {
      if GetAt(tree.root, w) == Some(Str(text)) {
        var i := FieldIndex(tree.root.fields, w[0]);
        SameNamesSameIndex(tree.root.fields, v.fields, w[0]);
        assert FieldIsCut(v, base, o, i, tree.root.fields[i].value, tree.cuts);
        assert base + w == base + [v.fields[i].name] + w[1..];
        assert IsLeft(v.fields[i].value, base + [v.fields[i].name], o, Tree(tree.root.fields[i].value, tree.cuts), w[1..], text);
      }
    }
  }

  // ---- what a sender cuts --------------------------------------------------------------------------

  predicate IsCutAt(packed: Packed, walk: seq<JsString>) {
    exists i :: 0 <= i < |packed.refs| && Segments(packed.refs[i].path) == walk
  }

  lemma {:induction false} CutIsReferred(data: Json, o: Options, ids: ChunkIds, walk: seq<JsString>)
    requires WellFormed(data) && SplitJson(data, o, ids).Success?
    ensures IsCutAt(SplitJson(data, o, ids).value, walk) <==> HasCut(CloneAndSplit(data, [], [], o, ids, 0).value.cuts, walk)
  {
    var packed, cuts := SplitJson(data, o, ids).value, CloneAndSplit(data, [], [], o, ids, 0).value.cuts;
    assert Segments([]) == [];
    PathsSpellWalks(data, [], [], o, ids, 0);
    CutsAreCuttable(data, [], [], o, ids, 0);
    forall i | 0 <= i < |cuts| ensures Segments(packed.refs[i].path) == cuts[i].walk {
      assert SpelledCut(cuts[i]);
    }
  }

  /** A string of the value is cut out if and only if it is larger than `largeValueBytes`, or larger than the lesser of
      `largeValueBytes` and `chunkBytes` where some preferred pattern has as many segments and each is a star or the step,
      or the caller's own rule wants it. */
  lemma {:induction false} WhatIsCut(data: Json, o: Options, ids: ChunkIds, walk: seq<JsString>, text: JsString)
    requires WellFormed(data) && SplitJson(data, o, ids).Success? && GetAt(data, walk) == Some(Str(text))
    ensures var size, lesser := |Utf8(text)|, if o.largeValueBytes < o.chunkBytes then o.largeValueBytes else o.chunkBytes;
            IsCutAt(SplitJson(data, o, ids).value, walk) <==>
              || size > o.largeValueBytes
              || (size > lesser && exists i :: 0 <= i < |o.preferredSplitPaths| && Names(o.preferredSplitPaths[i], walk))
              || o.split(PointerTo(walk), text, size)
  {
    var cuts := CloneAndSplit(data, [], [], o, ids, 0).value.cuts;
    assert [] + walk == walk;
    SplitCutsRight(data, [], o, ids, 0);
    CutIsReferred(data, o, ids, walk);
    if MustCut(o, walk, text) {
      assert IsDue(data, [], o, walk, text);
    }
    if HasCut(cuts, walk) {
      var k :| 0 <= k < |cuts| && cuts[k].walk == walk;
      assert IsRightCut(data, [], o, cuts[k]);
    }
  }

  /** Nothing but strings of the value is cut out, and each reference gives the size of its string. */
  lemma {:induction false} OnlyStringsAreCut(data: Json, o: Options, ids: ChunkIds, i: nat)
    requires WellFormed(data) && SplitJson(data, o, ids).Success? && i < |SplitJson(data, o, ids).value.refs|
    ensures var ref := SplitJson(data, o, ids).value.refs[i];
            exists text :: GetAt(data, Segments(ref.path)) == Some(Str(text)) && ref.size == |Utf8(text)|
  {
    var cuts := CloneAndSplit(data, [], [], o, ids, 0).value.cuts;
    SplitCutsRight(data, [], o, ids, 0);
    assert Segments([]) == [];
    PathsSpellWalks(data, [], [], o, ids, 0);
    CutsAreCuttable(data, [], [], o, ids, 0);
    assert SpelledCut(cuts[i]) && IsRightCut(data, [], o, cuts[i]);
    ByteLengthIsUtf8Length(cuts[i].text);
  }

  /** No string larger than `largeValueBytes` stays in the manifest, save in a marker. */
  lemma {:induction false} NothingLargeIsLeft(data: Json, o: Options, ids: ChunkIds, walk: seq<JsString>, text: JsString)
    requires WellFormed(data) && SplitJson(data, o, ids).Success?
    requires GetAt(SplitJson(data, o, ids).value.root, walk) == Some(Str(text)) && |Utf8(text)| > o.largeValueBytes
    ensures var refs := SplitJson(data, o, ids).value.refs;
            exists i :: 0 <= i < |refs| && Segments(refs[i].path) <= walk
  {
    var tree := CloneAndSplit(data, [], [], o, ids, 0).value;
    SplitCutsRight(data, [], o, ids, 0);
    assert [] + walk == walk;
    assert IsLeft(data, [], o, tree, walk, text);
    assert !IsKept(data, [], o, walk, text);
    var k :| 0 <= k < |tree.cuts| && tree.cuts[k].walk <= walk;
    CutIsReferred(data, o, ids, tree.cuts[k].walk);
    assert HasCut(tree.cuts, tree.cuts[k].walk);
  }
}
