/** JSON values, JSON pointers (sections 3 and 4 of RFC 6901), and reading or replacing the value a pointer names. */
module Json {
  import opened Outcomes
  import opened Text

  datatype Shape = Array | Object

  /** Arrays and objects are both lists of named fields: the name of an array item is its decimal index. */
  datatype Json =
    | Null
    | Bool(b: bool)
    | Num(n: real)
    | Str(s: JsString)
    | Node(shape: Shape, fields: seq<Field>)

  datatype Field = Field(name: JsString, value: Json)

  predicate WellFormed(v: Json) {
    v.Node? ==>
      && (forall i :: 0 <= i < |v.fields| ==> WellFormed(v.fields[i].value))
      && (v.shape.Array? ==> forall i :: 0 <= i < |v.fields| ==> v.fields[i].name == Decimal(i))
      && (v.shape.Object? ==> DistinctNames(v.fields))
  }

  predicate DistinctNames(fields: seq<Field>) {
    forall i, j :: 0 <= i < j < |fields| ==> fields[i].name != fields[j].name
  }

  function Ascii(text: string): JsString
    requires forall i :: 0 <= i < |text| ==> (text[i] as int) < 0x80
  {
    seq(|text|, i requires 0 <= i < |text| => text[i] as int)
  }

  // ---- array indices ---------------------------------------------------------------------------

  function Decimal(n: nat): (s: JsString)
    ensures s != [] && forall i :: 0 <= i < |s| ==> 0x30 <= s[i] <= 0x39
  {
    if n < 10 then [0x30 + n] else Decimal(n / 10) + [0x30 + n % 10]
  }

  function DecimalValue(s: JsString): int {
    if s == [] then 0 else 10 * DecimalValue(s[..|s| - 1]) + s[|s| - 1] - 0x30
  }

  lemma {:induction false} DecimalRoundTrip(n: nat)
    ensures DecimalValue(Decimal(n)) == n
  {
    if n >= 10 {
      DecimalRoundTrip(n / 10);
      assert Decimal(n)[..|Decimal(n)| - 1] == Decimal(n / 10);
    } else {
      assert Decimal(n)[..0] == [];
    }
  }

  /** The fields of a well-formed array or object have distinct names. */
  lemma {:induction false} NamesAreDistinct(v: Json)
    requires WellFormed(v) && v.Node?
    ensures DistinctNames(v.fields)
  {
    if v.shape.Array? {
      forall i, j | 0 <= i < j < |v.fields| ensures v.fields[i].name != v.fields[j].name {
        DecimalRoundTrip(i);
        DecimalRoundTrip(j);
      }
    }
  }

  // ---- pointer syntax --------------------------------------------------------------------------

  const SLASH: CodeUnit := 0x2F
  const TILDE: CodeUnit := 0x7E
  const ZERO: CodeUnit := 0x30
  const ONE: CodeUnit := 0x31

  function ReplaceUnit(s: JsString, u: CodeUnit, with: JsString): JsString {
    if s == [] then [] else (if s[0] == u then with else [s[0]]) + ReplaceUnit(s[1..], u, with)
  }

  function ReplacePair(s: JsString, a: CodeUnit, b: CodeUnit, with: CodeUnit): JsString {
    if |s| < 2 then s
    else if s[0] == a && s[1] == b then [with] + ReplacePair(s[2..], a, b, with)
    else [s[0]] + ReplacePair(s[1..], a, b, with)
  }

  function Escape(name: JsString): JsString {
    ReplaceUnit(ReplaceUnit(name, TILDE, [TILDE, ZERO]), SLASH, [TILDE, ONE])
  }

  function Unescape(segment: JsString): JsString {
    ReplacePair(ReplacePair(segment, TILDE, ONE, SLASH), TILDE, ZERO, TILDE)
  }

  function SplitSlash(path: JsString): (parts: seq<JsString>)
    ensures |parts| > 0
  {
    if path == [] then [[]]
    else
      var later := SplitSlash(path[1..]);
      if path[0] == SLASH then [[]] + later else [[path[0]] + later[0]] + later[1..]
  }

  function UnescapeAll(parts: seq<JsString>): (names: seq<JsString>)
    ensures |names| == |parts|
  {
    seq(|parts|, i requires 0 <= i < |parts| => Unescape(parts[i]))
  }

  /** The names a pointer walks through. */
  function Segments(path: JsString): seq<JsString> { UnescapeAll(SplitSlash(path)[1..]) }

  predicate TildesTakeZero(s: JsString) {
    forall i :: 0 <= i < |s| && s[i] == TILDE ==> i + 1 < |s| && s[i + 1] == ZERO
  }

  lemma {:induction false} EscapedTildes(s: JsString)
    ensures TildesTakeZero(ReplaceUnit(s, TILDE, [TILDE, ZERO]))
    ensures ReplacePair(ReplaceUnit(s, TILDE, [TILDE, ZERO]), TILDE, ZERO, TILDE) == s
  {
    if s != [] {
      var t, later := ReplaceUnit(s, TILDE, [TILDE, ZERO]), ReplaceUnit(s[1..], TILDE, [TILDE, ZERO]);
      EscapedTildes(s[1..]);
      if s[0] == TILDE {
        assert t == [TILDE, ZERO] + later && t[2..] == later;
      } else {
        assert t == [s[0]] + later && t[1..] == later;
      }
    }
  }

  lemma {:induction false} EscapedSlashes(t: JsString)
    requires TildesTakeZero(t)
    ensures ReplacePair(ReplaceUnit(t, SLASH, [TILDE, ONE]), TILDE, ONE, SLASH) == t
  {
    if t != [] {
      var e, later := ReplaceUnit(t, SLASH, [TILDE, ONE]), ReplaceUnit(t[1..], SLASH, [TILDE, ONE]);
      assert TildesTakeZero(t[1..]) by {
        forall i | 0 <= i < |t[1..]| && t[1..][i] == TILDE ensures i + 1 < |t[1..]| && t[1..][i + 1] == ZERO {
          assert t[i + 1] == TILDE;
        }
      }
      EscapedSlashes(t[1..]);
      if t[0] == SLASH {
        assert e[2..] == later;
      } else {
        assert e == [t[0]] + later && e[1..] == later;
        assert t[0] == TILDE ==> later[0] == ZERO;
      }
    }
  }

  lemma {:induction false} NoUnitLeft(s: JsString, u: CodeUnit, with: JsString)
    requires u !in with
    ensures u !in ReplaceUnit(s, u, with)
  {
    if s != [] {
      NoUnitLeft(s[1..], u, with);
    }
  }

  /** Escaping is undone by unescaping and leaves no slash, so a name survives as one pointer segment. */
  lemma {:induction false} EscapeRoundTrip(name: JsString)
    ensures Unescape(Escape(name)) == name
    ensures SLASH !in Escape(name)
  {
    var t := ReplaceUnit(name, TILDE, [TILDE, ZERO]);
    EscapedTildes(name);
    EscapedSlashes(t);
    NoUnitLeft(t, SLASH, [TILDE, ONE]);
  }

  lemma {:induction false} ReplaceCons(first: CodeUnit, rest: JsString, u: CodeUnit, with: JsString)
    ensures ReplaceUnit([first] + rest, u, with) == (if first == u then with else [first]) + ReplaceUnit(rest, u, with)
  {
    assert ([first] + rest)[1..] == rest;
  }

  /** Unit by unit, `~` becomes `~0` and `/` becomes `~1`. */
  lemma {:induction false} EscapeByUnit(u: CodeUnit, name: JsString)
    ensures Escape([u] + name) == (if u == 0x7E then [0x7E, 0x30] else if u == 0x2F then [0x7E, 0x31] else [u]) + Escape(name)
    ensures Escape([]) == []
  {
    var t := ReplaceUnit(name, TILDE, [TILDE, ZERO]);
    ReplaceCons(u, name, TILDE, [TILDE, ZERO]);
    if u == TILDE {
      assert [TILDE, ZERO] + t == [TILDE] + ([ZERO] + t);
      ReplaceCons(TILDE, [ZERO] + t, SLASH, [TILDE, ONE]);
      ReplaceCons(ZERO, t, SLASH, [TILDE, ONE]);
      assert [TILDE] + ([ZERO] + Escape(name)) == [TILDE, ZERO] + Escape(name);
    } else {
      ReplaceCons(u, t, SLASH, [TILDE, ONE]);
    }
  }

  lemma {:induction false} NothingToReplace(s: JsString, a: CodeUnit, b: CodeUnit, with: CodeUnit)
    requires a !in s
    ensures ReplacePair(s, a, b, with) == s
  {
    if |s| >= 2 {
      NothingToReplace(s[1..], a, b, with);
    }
  }

  lemma {:induction false} DecimalIsASegment(n: nat)
    ensures Unescape(Decimal(n)) == Decimal(n) && SLASH !in Decimal(n)
  {
    NothingToReplace(Decimal(n), TILDE, ONE, SLASH);
    NothingToReplace(Decimal(n), TILDE, ZERO, TILDE);
  }

  lemma {:induction false} SplitSlashAppend(path: JsString, segment: JsString)
    requires SLASH !in segment
    ensures SplitSlash(path + [SLASH] + segment) == SplitSlash(path) + [segment]
  {
    if path == [] {
      SplitNoSlash(segment);
      assert path + [SLASH] + segment == [SLASH] + segment;
      assert ([SLASH] + segment)[1..] == segment;
    } else {
      assert (path + [SLASH] + segment)[1..] == path[1..] + [SLASH] + segment;
      SplitSlashAppend(path[1..], segment);
    }
  }

  lemma {:induction false} SplitNoSlash(segment: JsString)
    requires SLASH !in segment
    ensures SplitSlash(segment) == [segment]
  {
    if segment != [] {
      SplitNoSlash(segment[1..]);
      assert [segment[0]] + segment[1..] == segment;
    }
  }

  /** The pointer of a field: array items are addressed by index, object fields by escaped name. */
  function FieldPath(shape: Shape, path: JsString, i: nat, name: JsString): JsString {
    path + [SLASH] + (if shape.Array? then Decimal(i) else Escape(name))
  }

  lemma {:induction false} FieldPathSegments(shape: Shape, path: JsString, i: nat, name: JsString)
    requires shape.Array? ==> name == Decimal(i)
    ensures Segments(FieldPath(shape, path, i, name)) == Segments(path) + [name]
  {
    DecimalIsASegment(i);
    EscapeRoundTrip(name);
    var segment := if shape.Array? then Decimal(i) else Escape(name);
    SplitSlashAppend(path, segment);
    assert SplitSlash(path + [SLASH] + segment)[1..] == SplitSlash(path)[1..] + [segment];
  }

  // ---- pointer evaluation ----------------------------------------------------------------------

  /** Position of the field with this name, or the number of fields when there is none. */
  function FieldIndex(fields: seq<Field>, name: JsString): (i: nat)
    ensures i <= |fields|
    ensures i < |fields| ==> fields[i].name == name
    ensures forall j :: 0 <= j < i ==> fields[j].name != name
  {
    if fields == [] || fields[0].name == name then 0
    else 1 + FieldIndex(fields[1..], name)
  }

  /** The value at the end of a walk, or None where the source reads `undefined`. */
  function GetAt(v: Json, segments: seq<JsString>): Option<Json>
    decreases |segments|
  {
    if segments == [] then Some(v)
    else if !v.Node? then None
    else
      var i := FieldIndex(v.fields, segments[0]);
      if i == |v.fields| then None else GetAt(v.fields[i].value, segments[1..])
  }

  /** Replaces the value at the end of a walk; a missing last field is added, a missing step on the way throws. */
  function SetAt(v: Json, segments: seq<JsString>, value: Json): Result<Json>
    decreases |segments|
  {
    if segments == [] then Success(value)
    else if !v.Node? then Failure("@path is invalid - json.ref.path")
    else
      var i := FieldIndex(v.fields, segments[0]);
      if i < |v.fields| then
        var inner :- SetAt(v.fields[i].value, segments[1..], value);
        Success(v.(fields := v.fields[i := Field(segments[0], inner)]))
      else if |segments| == 1 then
        Success(v.(fields := v.fields + [Field(segments[0], value)]))
      else Failure("@path is invalid - json.ref.path")
  }

  function GetByPointer(root: Json, path: JsString): Option<Json> { GetAt(root, Segments(path)) }

  function SetByPointer(root: Json, path: JsString, value: Json): Result<Json> {
    if Segments(path) == [] then Failure("@path is required - json.ref.path")
    else SetAt(root, Segments(path), value)
  }

  const REF_KEY: JsString := Ascii("$jsonTransportRef")

  function Marker(cid: JsString): Json { Node(Object, [Field(REF_KEY, Str(cid))]) }

  /** An object, not an array, whose marker field is this string; other fields do not matter. */
  predicate IsMarkerFor(v: Option<Json>, cid: JsString) {
    && v.Some? && v.value.Node? && v.value.shape.Object?
    && GetAt(v.value, [REF_KEY]) == Some(Str(cid))
  }
}
