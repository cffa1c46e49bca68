/** JavaScript strings as UTF-16 code units, their UTF-8 byte length, and the greedy byte splitter. */
module Text {
  import opened Outcomes

  type CodeUnit = n: int | 0 <= n < 0x1_0000
  type JsString = seq<CodeUnit>

  predicate HighSurrogate(u: CodeUnit) { 0xD800 <= u < 0xDC00 }

  predicate LowSurrogate(u: CodeUnit) { 0xDC00 <= u < 0xE000 }

  /** True when putting `b` after `a` would fuse the end of `a` and the start of `b` into one code point. */
  predicate Fuses(a: JsString, b: JsString) {
    a != [] && b != [] && HighSurrogate(a[|a| - 1]) && LowSurrogate(b[0])
  }

  /** What string iteration yields in one step: a surrogate pair, or a single unit (possibly a lone surrogate). */
  predicate IsCodePoint(c: JsString) {
    |c| == 1 || (|c| == 2 && HighSurrogate(c[0]) && LowSurrogate(c[1]))
  }

  type CodePoint = c: JsString | IsCodePoint(c) witness [0]

  function FirstCodePoint(s: JsString): (c: CodePoint)
    requires s != []
    ensures c <= s
    ensures !Fuses(c, s[|c|..])
  {
    if |s| >= 2 && HighSurrogate(s[0]) && LowSurrogate(s[1]) then s[..2] else s[..1]
  }

  function CodePoints(s: JsString): seq<CodePoint>
    decreases |s|
  {
    if s == [] then [] else [FirstCodePoint(s)] + CodePoints(s[|FirstCodePoint(s)|..])
  }

  /** UTF-8 length of one code point (section 3 of RFC 3629); a lone surrogate is encoded as U+FFFD, three bytes. */
  function CodePointBytes(c: CodePoint): nat {
    if |c| == 2 then 4 else if c[0] < 0x80 then 1 else if c[0] < 0x800 then 2 else 3
  }

  function Bytes(cps: seq<CodePoint>): nat {
    if cps == [] then 0 else CodePointBytes(cps[0]) + Bytes(cps[1..])
  }

  function ByteLength(s: JsString): nat { Bytes(CodePoints(s)) }

  type Byte = b: int | 0 <= b < 0x100

  /** The Unicode scalar value that is encoded for a code point: a lone surrogate is replaced by U+FFFD. */
  function Scalar(c: CodePoint): (v: int)
    ensures 0 <= v < 0x11_0000
  {
    if |c| == 2 then 0x1_0000 + (c[0] as int - 0xD800) * 0x400 + (c[1] as int - 0xDC00)
    else if 0xD800 <= c[0] < 0xE000 then 0xFFFD else c[0]
  }

  /** The UTF-8 octets of a scalar value (section 3 of RFC 3629). */
  function Octets(v: int): seq<Byte>
    requires 0 <= v < 0x11_0000
  {
    if v < 0x80 then [v]
    else if v < 0x800 then [0xC0 + v / 0x40, 0x80 + v % 0x40]
    else if v < 0x1_0000 then [0xE0 + v / 0x1000, 0x80 + v / 0x40 % 0x40, 0x80 + v % 0x40]
    else [0xF0 + v / 0x4_0000, 0x80 + v / 0x1000 % 0x40, 0x80 + v / 0x40 % 0x40, 0x80 + v % 0x40]
  }

  function OctetsOfAll(cps: seq<CodePoint>): seq<Byte> {
    if cps == [] then [] else Octets(Scalar(cps[0])) + OctetsOfAll(cps[1..])
  }

  /** The UTF-8 text of a string. */
  function Utf8(s: JsString): seq<Byte> { OctetsOfAll(CodePoints(s)) }

  lemma {:induction false} CodePointBytesAreOctets(c: CodePoint)
    ensures CodePointBytes(c) == |Octets(Scalar(c))|
  {
  }

  lemma {:induction false} BytesAreOctets(cps: seq<CodePoint>)
    ensures Bytes(cps) == |OctetsOfAll(cps)|
  {
    if cps != [] {
      CodePointBytesAreOctets(cps[0]);
      BytesAreOctets(cps[1..]);
    }
  }

  /** The length computed is the length of the UTF-8 text. */
  lemma {:induction false} ByteLengthIsUtf8Length(s: JsString)
    ensures ByteLength(s) == |Utf8(s)|
  {
    BytesAreOctets(CodePoints(s));
  }

  lemma {:induction false} OctetsAppend(a: seq<CodePoint>, b: seq<CodePoint>)
    ensures OctetsOfAll(a + b) == OctetsOfAll(a) + OctetsOfAll(b)
  {
    if a == [] {
      assert a + b == b;
    } else {
      assert (a + b)[1..] == a[1..] + b;
      OctetsAppend(a[1..], b);
    }
  }

  function Concat(parts: seq<JsString>): JsString {
    if parts == [] then [] else parts[0] + Concat(parts[1..])
  }

  lemma {:induction false} ConcatAppend(a: seq<JsString>, b: seq<JsString>)
    ensures Concat(a + b) == Concat(a) + Concat(b)
  {
    if a == [] {
      assert a + b == b;
    } else {
      assert (a + b)[1..] == a[1..] + b;
      ConcatAppend(a[1..], b);
    }
  }

  lemma {:induction false} BytesAppend(a: seq<CodePoint>, b: seq<CodePoint>)
    ensures Bytes(a + b) == Bytes(a) + Bytes(b)
  {
    if a == [] {
      assert a + b == b;
    } else {
      assert (a + b)[1..] == a[1..] + b;
      BytesAppend(a[1..], b);
    }
  }

  /** Code points are found independently on the two sides of a cut that splits no surrogate pair. */
  lemma {:induction false} CodePointsAppend(a: JsString, b: JsString)
    requires !Fuses(a, b)
    ensures CodePoints(a + b) == CodePoints(a) + CodePoints(b)
    decreases |a|
  {
    if a == [] {
      assert a + b == b;
    } else {
      var c := FirstCodePoint(a);
      assert FirstCodePoint(a + b) == c by {
        if |a| == 1 {
          assert |b| > 0 ==> (a + b)[1] == b[0];
        } else {
          assert (a + b)[0] == a[0] && (a + b)[1] == a[1];
        }
      }
      assert (a + b)[|c|..] == a[|c|..] + b;
      CodePointsAppend(a[|c|..], b);
    }
  }

  lemma {:induction false} ConcatCodePoints(s: JsString)
    ensures Concat(CodePoints(s)) == s
    decreases |s|
  {
    if s != [] {
      var c := FirstCodePoint(s);
      ConcatCodePoints(s[|c|..]);
      assert CodePoints(s) == [c] + CodePoints(s[|c|..]);
      assert CodePoints(s)[1..] == CodePoints(s[|c|..]) && CodePoints(s)[0] == c;
    }
  }

  /** No cut between consecutive parts falls inside a surrogate pair. */
  predicate CutsNoCodePoint(parts: seq<JsString>) {
    parts == [] || (!Fuses(parts[0], Concat(parts[1..])) && CutsNoCodePoint(parts[1..]))
  }

  // ---- splitting -----------------------------------------------------------------------------

  /** The number of leading code points that fit in `limit` bytes together. */
  function Fitting(cps: seq<CodePoint>, limit: int): (k: nat)
    requires limit >= 0
    ensures k <= |cps|
  {
    if cps == [] || CodePointBytes(cps[0]) > limit then 0
    else 1 + Fitting(cps[1..], limit - CodePointBytes(cps[0]))
  }

  predicate Splittable(cps: seq<CodePoint>, limit: int) {
    limit > 0 && forall i :: 0 <= i < |cps| ==> CodePointBytes(cps[i]) <= limit
  }

  function Greedy(cps: seq<CodePoint>, limit: int): seq<seq<CodePoint>>
    requires Splittable(cps, limit)
    decreases |cps|
  {
    if cps == [] then [] else
    var k := Fitting(cps, limit);
    [cps[..k]] + Greedy(cps[k..], limit)
  }

  function Joined(pieces: seq<seq<CodePoint>>): (parts: seq<JsString>)
    ensures |parts| == |pieces|
  {
    seq(|pieces|, i requires 0 <= i < |pieces| => Concat(pieces[i]))
  }

  /** The parts of a string: its greedy pieces, or one empty part for the empty string. */
  function Parts(value: JsString, limit: int): seq<JsString>
    requires Splittable(CodePoints(value), limit)
  {
    if value == [] then [[]] else Joined(Greedy(CodePoints(value), limit))
  }

  lemma {:induction false} FittingIs(cps: seq<CodePoint>, k: nat, limit: int)
    requires k <= |cps| && Bytes(cps[..k]) <= limit
    requires k < |cps| ==> Bytes(cps[..k + 1]) > limit
    ensures Fitting(cps, limit) == k
    decreases k
  {
    if k == 0 {
      if cps != [] {
        assert cps[..1] == [cps[0]];
        assert Bytes(cps[..1]) == CodePointBytes(cps[0]) + Bytes(cps[..1][1..]);
      }
    } else {
      assert cps[..k][1..] == cps[1..][..k - 1];
      if k < |cps| {
        assert cps[..k + 1][1..] == cps[1..][..k];
      }
      FittingIs(cps[1..], k - 1, limit - CodePointBytes(cps[0]));
    }
  }

  /** Everything that fits is taken: no prefix longer than `Fitting` stays within the limit. */
  lemma {:induction false} FittingIsLongest(cps: seq<CodePoint>, k: nat, limit: int)
    requires limit >= 0 && k <= |cps|
    ensures Bytes(cps[..k]) <= limit <==> k <= Fitting(cps, limit)
    decreases k
  {
    if k > 0 {
      assert cps[..k][1..] == cps[1..][..k - 1];
      if CodePointBytes(cps[0]) <= limit {
        FittingIsLongest(cps[1..], k - 1, limit - CodePointBytes(cps[0]));
      }
    }
  }

  /** The parts still to come when `buffer`, of `bytes` bytes, has been collected and `cps` is unread. */
  function Remaining(buffer: JsString, bytes: nat, cps: seq<CodePoint>, limit: int): seq<JsString>
    decreases |cps|
  {
    if cps == [] then
      if buffer == [] then [] else [buffer]
    else
      var size := CodePointBytes(cps[0]);
      if buffer != [] && bytes + size > limit then [buffer] + Remaining(cps[0], size, cps[1..], limit)
      else Remaining(buffer + cps[0], bytes + size, cps[1..], limit)
  }

  /** What remains of the greedy pieces when the first one is the whole text, or `piece`. */
  lemma {:induction false} OnePiece(piece: seq<CodePoint>, limit: int)
    requires Splittable(piece, limit) && Bytes(piece) <= limit
    ensures Joined(Greedy(piece, limit)) == if piece == [] then [] else [Concat(piece)]
  {
    if piece != [] {
      assert piece[..|piece|] == piece && piece[|piece|..] == [];
      FittingIs(piece, |piece|, limit);
      NextPiece(piece, limit);
    }
  }

  lemma {:induction false} NextPiece(cps: seq<CodePoint>, limit: int)
    requires Splittable(cps, limit) && cps != []
    ensures var k := Fitting(cps, limit);
            Joined(Greedy(cps, limit)) == [Concat(cps[..k])] + Joined(Greedy(cps[k..], limit))
  {
  }

  lemma {:induction false} FullPiece(piece: seq<CodePoint>, cps: seq<CodePoint>, limit: int)
    requires Splittable(piece + cps, limit) && Splittable(cps, limit) && piece != [] && cps != []
    requires Bytes(piece) <= limit < Bytes(piece + [cps[0]])
    ensures Joined(Greedy(piece + cps, limit)) == [Concat(piece)] + Joined(Greedy(cps, limit))
  {
    assert (piece + cps)[..|piece|] == piece && (piece + cps)[|piece|..] == cps;
    assert (piece + cps)[..|piece| + 1] == piece + [cps[0]];
    FittingIs(piece + cps, |piece|, limit);
    NextPiece(piece + cps, limit);
  }

  lemma {:induction false} SplittableParts(a: seq<CodePoint>, b: seq<CodePoint>, limit: int)
    requires Splittable(a + b, limit)
    ensures Splittable(a, limit) && Splittable(b, limit)
  {
    assert forall i :: 0 <= i < |a| ==> (a + b)[i] == a[i];
    assert forall i :: 0 <= i < |b| ==> (a + b)[|a| + i] == b[i];
  }

  lemma {:induction false} OnePointMore(piece: seq<CodePoint>, c: CodePoint)
    ensures Bytes(piece + [c]) == Bytes(piece) + CodePointBytes(c) && Concat(piece + [c]) == Concat(piece) + c
    ensures Bytes([c]) == CodePointBytes(c) && Concat([c]) == c
  {
    assert [c][1..] == [];
    BytesAppend(piece, [c]);
    ConcatAppend(piece, [c]);
  }

  /** Filling part after part from left to right takes, for each part, the longest prefix that fits. */
  lemma {:induction false} RemainingIsGreedy(piece: seq<CodePoint>, cps: seq<CodePoint>, limit: int)
    requires Splittable(piece + cps, limit)
    requires Bytes(piece) <= limit
    ensures Remaining(Concat(piece), Bytes(piece), cps, limit) == Joined(Greedy(piece + cps, limit))
    decreases |cps|
  {
    if cps == [] {
      assert piece + cps == piece;
      OnePiece(piece, limit);
      ConcatIsEmpty(piece);
    } else {
      SplittableParts(piece, cps, limit);
      assert CodePointBytes(cps[0]) <= limit;
      OnePointMore(piece, cps[0]);
      ConcatIsEmpty(piece);
      if piece != [] && Bytes(piece + [cps[0]]) > limit {
        assert [cps[0]] + cps[1..] == cps;
        FullPiece(piece, cps, limit);
        RemainingIsGreedy([cps[0]], cps[1..], limit);
      } else {
        assert piece + [cps[0]] + cps[1..] == piece + cps;
        assert piece == [] ==> Bytes(piece) == 0;
        RemainingIsGreedy(piece + [cps[0]], cps[1..], limit);
      }
    }
  }

  lemma {:induction false} ConcatIsEmpty(cps: seq<CodePoint>)
    ensures Concat(cps) == [] <==> cps == []
  {
  }

  /** No character takes more octets than the budget. */
  ghost predicate EachPointFits(cps: seq<CodePoint>, limit: int) {
    forall i :: 0 <= i < |cps| ==> |Octets(Scalar(cps[i]))| <= limit
  }

  /** What the splitter demands, in octets of the UTF-8 text. */
  lemma {:induction false} SplittableMeans(cps: seq<CodePoint>, limit: int)
    ensures Splittable(cps, limit) <==> limit > 0 && EachPointFits(cps, limit)
  {
    forall i | 0 <= i < |cps| ensures CodePointBytes(cps[i]) == |Octets(Scalar(cps[i]))| {
      CodePointBytesAreOctets(cps[i]);
    }
  }

  /** Splits a string into parts of at most `chunkBytes` UTF-8 bytes, filling each part before starting the next. */
  method SplitStringByBytes(value: JsString, chunkBytes: int) returns (r: Result<seq<JsString>>)
    ensures r.Success? <==> Splittable(CodePoints(value), chunkBytes)
    ensures r.Success? ==> r.value == Parts(value, chunkBytes)
  {
    if chunkBytes <= 0 {
      return Failure("@chunkBytes should be positive - json.configure");
    }
    var parts: seq<JsString> := [];
    var buffer: JsString := [];
    var bufferBytes: nat := 0;
    var rest := value;
    while |rest| > 0
      invariant buffer == [] ==> rest == value && parts == []
      invariant Splittable(CodePoints(value), chunkBytes) <==> Splittable(CodePoints(rest), chunkBytes)
      invariant parts + Remaining(buffer, bufferBytes, CodePoints(rest), chunkBytes)
             == Remaining([], 0, CodePoints(value), chunkBytes)
    {
      var point := FirstCodePoint(rest);
      var pointBytes := CodePointBytes(point);
      RemainingStep(buffer, bufferBytes, rest, chunkBytes);
      rest := rest[|point|..];
      if pointBytes > chunkBytes {
        return Failure("@chunkBytes is too small for a character - json.split");
      }
      if buffer != [] && bufferBytes + pointBytes > chunkBytes {
        Regroup(parts, buffer, Remaining(point, pointBytes, CodePoints(rest), chunkBytes));
        parts := parts + [buffer];
        buffer, bufferBytes := point, pointBytes;
      } else {
        buffer, bufferBytes := buffer + point, bufferBytes + pointBytes;
      }
    }
    PartsAreRemaining(value, chunkBytes);
    if buffer != [] || |parts| <= 0 {
      parts := parts + [buffer];
    }
    return Success(parts);
  }

  lemma {:induction false} PartsAreRemaining(value: JsString, limit: int)
    requires Splittable(CodePoints(value), limit)
    ensures Parts(value, limit) == if value == [] then [[]] else Remaining([], 0, CodePoints(value), limit)
  {
    RemainingIsGreedy([], CodePoints(value), limit);
    assert [] + CodePoints(value) == CodePoints(value);
  }

  lemma {:induction false} SplittableCons(cps: seq<CodePoint>, limit: int)
    requires cps != []
    ensures Splittable(cps, limit) <==> CodePointBytes(cps[0]) <= limit && Splittable(cps[1..], limit)
  {
    if CodePointBytes(cps[0]) <= limit && Splittable(cps[1..], limit) {
      forall i | 0 <= i < |cps| ensures CodePointBytes(cps[i]) <= limit {
        if i > 0 { assert cps[i] == cps[1..][i - 1]; }
      }
    }
    if Splittable(cps, limit) {
      forall i | 0 <= i < |cps| - 1 ensures CodePointBytes(cps[1..][i]) <= limit {
        assert cps[1..][i] == cps[i + 1];
      }
    }
  }

  lemma {:induction false} RemainingStep(buffer: JsString, bytes: nat, rest: JsString, limit: int)
    requires rest != []
    ensures var point, unread := FirstCodePoint(rest), CodePoints(rest[|FirstCodePoint(rest)|..]);
            var size := CodePointBytes(point);
            && (Splittable(CodePoints(rest), limit) <==> size <= limit && Splittable(unread, limit))
            && Remaining(buffer, bytes, CodePoints(rest), limit) ==
               if buffer != [] && bytes + size > limit then [buffer] + Remaining(point, size, unread, limit)
               else Remaining(buffer + point, bytes + size, unread, limit)
  {
    assert CodePoints(rest)[1..] == CodePoints(rest[|FirstCodePoint(rest)|..]);
    SplittableCons(CodePoints(rest), limit);
  }

  lemma {:induction false} Regroup(a: seq<JsString>, x: JsString, b: seq<JsString>)
    ensures a + ([x] + b) == (a + [x]) + b
  {
  }

  // ---- what the splitter promises --------------------------------------------------------------

  predicate Unfused(cps: seq<CodePoint>) {
    forall i :: 0 <= i < |cps| - 1 ==> !Fuses(cps[i], cps[i + 1])
  }

  lemma {:induction false} CodePointsUnfused(s: JsString)
    ensures Unfused(CodePoints(s))
    decreases |s|
  {
    if s != [] {
      var rest := s[|FirstCodePoint(s)|..];
      CodePointsUnfused(rest);
      forall i | 0 <= i < |CodePoints(s)| - 1 ensures !Fuses(CodePoints(s)[i], CodePoints(s)[i + 1]) {
        if i == 0 {
          assert CodePoints(s)[1] == CodePoints(rest)[0] == FirstCodePoint(rest);
        } else {
          assert CodePoints(s)[i] == CodePoints(rest)[i - 1] && CodePoints(s)[i + 1] == CodePoints(rest)[i];
        }
      }
    }
  }

  lemma {:induction false} CodePointsOfConcat(cps: seq<CodePoint>)
    requires Unfused(cps)
    ensures CodePoints(Concat(cps)) == cps
  {
    if cps != [] {
      forall i | 0 <= i < |cps| - 2 ensures !Fuses(cps[1..][i], cps[1..][i + 1]) {
        assert cps[1..][i] == cps[i + 1] && cps[1..][i + 1] == cps[i + 2];
      }
      CodePointsOfConcat(cps[1..]);
      assert |cps| > 1 ==> Concat(cps[1..])[0] == cps[1][0];
      CodePointsAppend(cps[0], Concat(cps[1..]));
      assert FirstCodePoint(cps[0]) == cps[0] && cps[0][|cps[0]|..] == [];
    }
  }

  predicate GoodParts(parts: seq<JsString>, limit: int) {
    && CutsNoCodePoint(parts)
    && forall i :: 0 <= i < |parts| ==> parts[i] != [] && ByteLength(parts[i]) <= limit
  }

  /** The pieces rebuild the text, fit the limit, are not empty and are cut between code points. */
  lemma {:induction false} GreedyPieces(cps: seq<CodePoint>, limit: int)
    requires Splittable(cps, limit) && Unfused(cps)
    ensures Concat(Joined(Greedy(cps, limit))) == Concat(cps)
    ensures GoodParts(Joined(Greedy(cps, limit)), limit)
    decreases |cps|
  {
    if cps != [] {
      var k := Fitting(cps, limit);
      GreedyPieces(cps[k..], limit);
      FirstPiece(cps, limit);
      NextPiece(cps, limit);
      AddPart(Concat(cps[..k]), Joined(Greedy(cps[k..], limit)), limit);
    }
  }

  lemma {:induction false} AddPart(first: JsString, later: seq<JsString>, limit: int)
    requires first != [] && ByteLength(first) <= limit && !Fuses(first, Concat(later)) && GoodParts(later, limit)
    ensures GoodParts([first] + later, limit) && Concat([first] + later) == first + Concat(later)
  {
    assert ([first] + later)[1..] == later;
  }

  lemma {:induction false} FirstPiece(cps: seq<CodePoint>, limit: int)
    requires Splittable(cps, limit) && Unfused(cps) && cps != []
    ensures var k := Fitting(cps, limit);
            && Concat(cps) == Concat(cps[..k]) + Concat(cps[k..])
            && ByteLength(Concat(cps[..k])) <= limit
            && !Fuses(Concat(cps[..k]), Concat(cps[k..]))
            && Concat(cps[..k]) != []
  {
    var k := Fitting(cps, limit);
    assert cps == cps[..k] + cps[k..];
    ConcatAppend(cps[..k], cps[k..]);
    CodePointsOfConcat(cps[..k]);
    FittingIsLongest(cps, k, limit);
    LastUnit(cps[..k]);
    if k < |cps| {
      assert Concat(cps[k..])[0] == cps[k][0];
      assert !Fuses(cps[k - 1], cps[k - 1 + 1]);
    }
  }

  lemma {:induction false} LastUnit(cps: seq<CodePoint>)
    requires cps != []
    ensures Concat(cps) != [] && Concat(cps)[|Concat(cps)| - 1] == cps[|cps| - 1][|cps[|cps| - 1]| - 1]
  {
    if |cps| > 1 {
      LastUnit(cps[1..]);
    }
  }

  /** The UTF-8 texts of the parts, one after another. */
  function Utf8OfAll(parts: seq<JsString>): seq<Byte> {
    if parts == [] then [] else Utf8(parts[0]) + Utf8OfAll(parts[1..])
  }

  lemma {:induction false} PartsEncodeTheWhole(parts: seq<JsString>)
    requires CutsNoCodePoint(parts)
    ensures Utf8OfAll(parts) == Utf8(Concat(parts))
  {
    if parts != [] {
      PartsEncodeTheWhole(parts[1..]);
      CodePointsAppend(parts[0], Concat(parts[1..]));
      OctetsAppend(CodePoints(parts[0]), CodePoints(Concat(parts[1..])));
    }
  }

  /** Splitting loses nothing, cuts no code point, and respects the byte limit, in characters and in their UTF-8 text. */
  lemma {:induction false} PartsAreFaithful(value: JsString, limit: int)
    requires Splittable(CodePoints(value), limit)
    ensures var parts := Parts(value, limit);
            && Concat(parts) == value && Utf8OfAll(parts) == Utf8(value)
            && CutsNoCodePoint(parts)
            && |parts| > 0
            && forall i :: 0 <= i < |parts| ==> |Utf8(parts[i])| == ByteLength(parts[i]) <= limit && (parts[i] == [] ==> value == [])
  {
    ConcatCodePoints(value);
    CodePointsUnfused(value);
    GreedyPieces(CodePoints(value), limit);
    var parts := Parts(value, limit);
    PartsEncodeTheWhole(parts);
    forall i | 0 <= i < |parts| ensures |Utf8(parts[i])| == ByteLength(parts[i]) {
      ByteLengthIsUtf8Length(parts[i]);
    }
  }

  function Flatten(pieces: seq<seq<CodePoint>>): seq<CodePoint> {
    if pieces == [] then [] else pieces[0] + Flatten(pieces[1..])
  }

  /** Where the greedy piece that starts inside `piece` ends, the rest has begun. */
  lemma {:induction false} GreedyGoesPast(piece: seq<CodePoint>, rest: seq<CodePoint>, from: nat, limit: int)
    requires Splittable(piece + rest, limit) && Bytes(piece) <= limit && from < |piece|
    ensures var suffix := (piece + rest)[from..];
            var k := Fitting(suffix, limit);
            from + k >= |piece| && suffix[k..] == rest[from + k - |piece|..]
  {
    var suffix := (piece + rest)[from..];
    assert piece == piece[..from] + piece[from..];
    BytesAppend(piece[..from], piece[from..]);
    assert suffix[..|piece| - from] == piece[from..];
    FittingIsLongest(suffix, |piece| - from, limit);
  }

  /** Greedy stays ahead: on any suffix of the text it needs no more pieces than `other` needs for the whole. */
  lemma {:induction false} GreedyStaysAhead(text: seq<CodePoint>, other: seq<seq<CodePoint>>, from: nat, limit: int)
    requires Splittable(text, limit) && Flatten(other) == text && from <= |text|
    requires forall i :: 0 <= i < |other| ==> Bytes(other[i]) <= limit
    ensures |Greedy(text[from..], limit)| <= |other|
    decreases |other|
  {
    if from < |text| {
      var piece, rest := other[0], Flatten(other[1..]);
      assert text == piece + rest;
      SplittableParts(piece, rest, limit);
      if |piece| <= from {
        assert rest[from - |piece|..] == text[from..];
        GreedyStaysAhead(rest, other[1..], from - |piece|, limit);
      } else {
        var k := Fitting(text[from..], limit);
        GreedyGoesPast(piece, rest, from, limit);
        GreedyStaysAhead(rest, other[1..], from + k - |piece|, limit);
      }
    }
  }

  lemma {:induction false} CodePointsOfParts(parts: seq<JsString>) returns (pieces: seq<seq<CodePoint>>)
    requires CutsNoCodePoint(parts)
    ensures |pieces| == |parts| && forall i :: 0 <= i < |parts| ==> pieces[i] == CodePoints(parts[i])
    ensures Flatten(pieces) == CodePoints(Concat(parts))
  {
    if parts == [] {
      pieces := [];
    } else {
      var later := CodePointsOfParts(parts[1..]);
      CodePointsAppend(parts[0], Concat(parts[1..]));
      pieces := [CodePoints(parts[0])] + later;
      assert pieces[1..] == later;
    }
  }

  /** No other way to cut the text between code points into parts within the limit uses fewer parts. */
  lemma {:induction false} PartsAreFewest(value: JsString, limit: int, other: seq<JsString>)
    requires Splittable(CodePoints(value), limit)
    requires Concat(other) == value && CutsNoCodePoint(other)
    requires forall i :: 0 <= i < |other| ==> ByteLength(other[i]) <= limit
    ensures value != [] ==> |Parts(value, limit)| <= |other|
  {
    var pieces := CodePointsOfParts(other);
    GreedyStaysAhead(CodePoints(value), pieces, 0, limit);
    assert CodePoints(value)[0..] == CodePoints(value);
  }
}
