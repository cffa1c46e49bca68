/** The JSON text of log entries and batches (RFC 8259): what the byte counts count. */
module LogText {
  import opened Outcomes
  import opened Text
  import opened Json
  import opened LogTrace
  import opened LogReporter

  // ---- strings -----------------------------------------------------------------------------------

  const QUOTE: CodeUnit := 0x22
  const BACKSLASH: CodeUnit := 0x5C

  function HexDigit(n: int): CodeUnit
    requires 0 <= n < 16
  {
    if n < 10 then 0x30 + n else 0x57 + n
  }

  /** Four hexadecimal digits. */
  function Hex(u: CodeUnit): JsString {
    [HexDigit(u / 0x1000), HexDigit(u / 0x100 % 16), HexDigit(u / 0x10 % 16), HexDigit(u % 16)]
  }

  /** The letter that stands for a control character after a backslash, if there is one. */
  function Letter(u: CodeUnit): Option<CodeUnit> {
    if u == 0x08 then Some(0x62)
    else if u == 0x09 then Some(0x74)
    else if u == 0x0A then Some(0x6E)
    else if u == 0x0C then Some(0x66)
    else if u == 0x0D then Some(0x72)
    else None
  }

  /** A code point inside a JSON string, lone surrogates as hexadecimal escapes. */
  function Escaped(c: CodePoint): JsString {
    if |c| == 2 then c
    else if c[0] == QUOTE || c[0] == BACKSLASH then [BACKSLASH, c[0]]
    else if Letter(c[0]).Some? then [BACKSLASH, Letter(c[0]).value]
    else if c[0] < 0x20 || 0xD800 <= c[0] < 0xE000 then [BACKSLASH, 0x75] + Hex(c[0])
    else c
  }

  function EscapedAll(cps: seq<CodePoint>): JsString {
    if cps == [] then [] else Escaped(cps[0]) + EscapedAll(cps[1..])
  }

  function HexValue(u: CodeUnit): Option<int> {
    if 0x30 <= u < 0x3A then Some(u as int - 0x30)
    else if 0x61 <= u < 0x67 then Some(u as int - 0x57)
    else if 0x41 <= u < 0x47 then Some(u as int - 0x37)
    else None
  }

  /** The unit an escape stands for, and the length of the escape (section 7 of RFC 8259). */
  function ReadEscape(s: JsString): (r: Option<(CodeUnit, nat)>)
    requires s != [] && s[0] == BACKSLASH
    ensures r.Some? ==> 0 < r.value.1 <= |s|
  {
    if |s| < 2 then None
    else if s[1] in {0x22, 0x5C, 0x2F} then Some((s[1], 2))
    else if s[1] == 0x62 then Some((0x08, 2))
    else if s[1] == 0x66 then Some((0x0C, 2))
    else if s[1] == 0x6E then Some((0x0A, 2))
    else if s[1] == 0x72 then Some((0x0D, 2))
    else if s[1] == 0x74 then Some((0x09, 2))
    else if s[1] != 0x75 || |s| < 6 then None
    else
      var a, b, c, d := HexValue(s[2]), HexValue(s[3]), HexValue(s[4]), HexValue(s[5]);
      if a.None? || b.None? || c.None? || d.None? then None
      else
        var v := a.value * 0x1000 + b.value * 0x100 + c.value * 0x10 + d.value;
        if 0 <= v < 0x1_0000 then Some((v, 6)) else None
  }

  /** What the text between the quotes of a JSON string says. */
  function ReadString(s: JsString): Option<JsString>
    decreases |s|
  {
    if s == [] then Some([])
    else if s[0] == QUOTE || s[0] < 0x20 then None
    else if s[0] == BACKSLASH then
      match ReadEscape(s)
      case None => None
      case Some((u, n)) =>
        match ReadString(s[n..])
        case None => None
        case Some(later) => Some([u] + later)
    else
      match ReadString(s[1..])
      case None => None
      case Some(later) => Some([s[0]] + later)
  }

  lemma {:induction false} HexIsRead(u: CodeUnit, later: JsString)
    ensures ReadEscape([BACKSLASH, 0x75] + Hex(u) + later) == Some((u, 6))
  {
    var s := [BACKSLASH, 0x75] + Hex(u) + later;
    assert s[2] == Hex(u)[0] && s[3] == Hex(u)[1] && s[4] == Hex(u)[2] && s[5] == Hex(u)[3];
    assert u / 0x1000 * 0x1000 + u / 0x100 % 16 * 0x100 + u / 0x10 % 16 * 0x10 + u % 16 == u by {
      assert u / 0x100 == u / 0x10 / 16 && u / 0x1000 == u / 0x10 / 16 / 16;
    }
  }

  lemma {:induction false} EscapedIsRead(c: CodePoint, later: JsString)
    requires ReadString(later).Some?
    ensures ReadString(Escaped(c) + later) == Some(c + ReadString(later).value)
  {
    var s := Escaped(c) + later;
    if |c| == 2 {
      assert s[0] == c[0] && s[1..][0] == c[1] && s[1..][1..] == later;
      assert [c[0]] + ([c[1]] + ReadString(later).value) == c + ReadString(later).value;
    } else if |Escaped(c)| == 1 {
      assert s[0] == c[0] && s[1..] == later;
      assert c == [c[0]];
    } else {
      assert c == [c[0]];
      assert s[|Escaped(c)|..] == later;
      if |Escaped(c)| == 6 {
        HexIsRead(c[0], later);
        assert s == [BACKSLASH, 0x75] + Hex(c[0]) + later;
      }
    }
  }

  lemma {:induction false} EscapedAllIsRead(cps: seq<CodePoint>)
    ensures ReadString(EscapedAll(cps)) == Some(Concat(cps))
  {
    if cps != [] {
      EscapedAllIsRead(cps[1..]);
      EscapedIsRead(cps[0], EscapedAll(cps[1..]));
    }
  }

  /** Reading a string back gives the string, whatever it contains. */
  lemma {:induction false} StringRoundTrip(s: JsString)
    ensures ReadString(EscapedAll(CodePoints(s))) == Some(s)
  {
    EscapedAllIsRead(CodePoints(s));
    ConcatCodePoints(s);
  }

  // ---- sizes -------------------------------------------------------------------------------------

  predicate IsAscii(s: JsString) { forall i :: 0 <= i < |s| ==> s[i] < 0x80 }

  lemma {:induction false} AsciiBytes(s: JsString)
    requires IsAscii(s)
    ensures ByteLength(s) == |s|
  {
    if s != [] {
      assert FirstCodePoint(s) == s[..1];
      AsciiBytes(s[1..]);
      assert CodePoints(s) == [s[..1]] + CodePoints(s[1..]);
      assert CodePoints(s)[1..] == CodePoints(s[1..]);
    }
  }

  lemma {:induction false} BytesOfBoth(a: JsString, b: JsString)
    requires !Fuses(a, b)
    ensures ByteLength(a + b) == ByteLength(a) + ByteLength(b)
  {
    CodePointsAppend(a, b);
    BytesAppend(CodePoints(a), CodePoints(b));
  }

  /** Nothing fuses with what starts, or with what ends, in ASCII. */
  lemma {:induction false} AsciiIsApart(a: JsString, b: JsString)
    requires IsAscii(a) || IsAscii(b)
    ensures !Fuses(a, b) && ByteLength(a + b) == ByteLength(a) + ByteLength(b)
  {
    BytesOfBoth(a, b);
  }

  lemma {:induction false} EscapedSize(c: CodePoint)
    ensures ByteLength(Escaped(c)) == EscapedBytes(c)
    ensures Escaped(c) != [] && !LowSurrogate(Escaped(c)[0])
  {
    if |c| == 2 || |Escaped(c)| == 1 {
      assert FirstCodePoint(c) == c && c[|c|..] == [];
      assert CodePoints(c) == [c] + CodePoints(c[|c|..]);
      assert CodePoints(c) == [c] && [c][1..] == [];
      assert Bytes([c]) == CodePointBytes(c) + Bytes([c][1..]);
    } else {
      AsciiBytes(Escaped(c));
    }
  }

  lemma {:induction false} EscapedAllSize(cps: seq<CodePoint>)
    ensures ByteLength(EscapedAll(cps)) == AllEscapedBytes(cps)
    ensures EscapedAll(cps) != [] ==> !LowSurrogate(EscapedAll(cps)[0])
  {
    if cps != [] {
      EscapedSize(cps[0]);
      EscapedAllSize(cps[1..]);
      assert !Fuses(Escaped(cps[0]), EscapedAll(cps[1..]));
      BytesOfBoth(Escaped(cps[0]), EscapedAll(cps[1..]));
    }
  }

  // ---- entries -----------------------------------------------------------------------------------

  function Quoted(s: JsString): JsString { [QUOTE] + EscapedAll(CodePoints(s)) + [QUOTE] }

  lemma {:induction false} QuotedSize(s: JsString)
    ensures ByteLength(Quoted(s)) == StringBytes(s)
  {
    var inner, quote := EscapedAll(CodePoints(s)), [QUOTE];
    EscapedAllSize(CodePoints(s));
    AsciiBytes(quote);
    AsciiIsApart(quote, inner);
    AsciiIsApart(quote + inner, quote);
  }

  function IntText(n: int): JsString { if n < 0 then [0x2D] + Decimal(-n) else Decimal(n) }

  lemma {:induction false} IntSize(n: int)
    ensures ByteLength(IntText(n)) == IntBytes(n)
  {
    AsciiBytes(IntText(n));
  }

  /** A value behind its label. */
  lemma {:induction false} LabelledSize(before: JsString, caption: JsString, value: JsString)
    requires IsAscii(caption) && caption != []
    ensures ByteLength(before + caption + value) == ByteLength(before) + |caption| + ByteLength(value)
  {
    AsciiBytes(caption);
    AsciiIsApart(before, caption);
    assert (before + caption)[|before + caption| - 1] == caption[|caption| - 1];
    BytesOfBoth(before + caption, value);
  }

  const LEVEL := Ascii("{\"level\":")
  const TS := Ascii(",\"ts\":")
  const MESSAGE := Ascii(",\"message\":")
  const SEQ := Ascii(",\"seq\":")
  const JSON := Ascii(",\"json\":")
  const TRUNCATED := Ascii(",\"truncated\":true")

  /** The members every entry has. */
  function Members(e: Entry): JsString {
    LEVEL + Quoted(Name(e.level)) + TS + IntText(e.ts) + MESSAGE + Quoted(e.message) + SEQ + IntText(e.seqNo)
  }

  lemma {:induction false} CaptionSizes()
    ensures IsAscii(LEVEL) && IsAscii(TS) && IsAscii(MESSAGE) && IsAscii(SEQ) && IsAscii(JSON) && IsAscii(TRUNCATED)
    ensures |LEVEL| == 9 && |TS| == 6 && |MESSAGE| == 11 && |SEQ| == 7 && |JSON| == 8 && |TRUNCATED| == 17
  {
  }

  /** Two labelled values. */
  lemma {:induction false} PairSize(before: JsString, first: JsString, a: JsString, second: JsString, b: JsString)
    requires IsAscii(first) && first != [] && IsAscii(second) && second != []
    ensures ByteLength(before + first + a + second + b)
         == ByteLength(before) + |first| + ByteLength(a) + |second| + ByteLength(b)
  {
    LabelledSize(before, first, a);
    LabelledSize(before + first + a, second, b);
  }

  lemma {:induction false} MembersSize(e: Entry)
    ensures ByteLength(Members(e))
         == 33 + StringBytes(Name(e.level)) + IntBytes(e.ts) + StringBytes(e.message) + IntBytes(e.seqNo)
  {
    var first := LEVEL + Quoted(Name(e.level)) + TS + IntText(e.ts);
    QuotedSize(Name(e.level));
    QuotedSize(e.message);
    IntSize(e.ts);
    IntSize(e.seqNo);
    AsciiBytes([]);
    CaptionSizes();
    assert [] + LEVEL == LEVEL;
    PairSize([], LEVEL, Quoted(Name(e.level)), TS, IntText(e.ts));
    PairSize(first, MESSAGE, Quoted(e.message), SEQ, IntText(e.seqNo));
  }

  function WithData(e: Entry): JsString {
    if e.json.Some? then Members(e) + JSON + e.json.value else Members(e)
  }

  /** The JSON text of an entry; its structured data is JSON text already. */
  function EntryText(e: Entry): JsString {
    (if e.truncated then WithData(e) + TRUNCATED else WithData(e)) + Ascii("}")
  }

  lemma {:induction false} WithDataSize(e: Entry)
    ensures ByteLength(WithData(e)) == ByteLength(Members(e)) + if e.json.Some? then 8 + ByteLength(e.json.value) else 0
  {
    CaptionSizes();
    if e.json.Some? {
      LabelledSize(Members(e), JSON, e.json.value);
    }
  }

  /** ASCII text behind a text. */
  lemma {:induction false} EndedSize(before: JsString, ending: JsString)
    requires IsAscii(ending)
    ensures ByteLength(before + ending) == ByteLength(before) + |ending|
  {
    AsciiBytes(ending);
    AsciiIsApart(before, ending);
  }

  lemma {:induction false} MarkedSize(data: JsString, truncated: bool)
    ensures ByteLength((if truncated then data + TRUNCATED else data) + Ascii("}"))
         == ByteLength(data) + 1 + if truncated then 17 else 0
  {
    CaptionSizes();
    EndedSize(data, TRUNCATED);
    EndedSize(if truncated then data + TRUNCATED else data, Ascii("}"));
  }

  lemma {:induction false} SerializedParts(e: Entry)
    ensures SerializedBytes(e) == 34 + StringBytes(Name(e.level)) + IntBytes(e.ts) + StringBytes(e.message) + IntBytes(e.seqNo)
                                  + (if e.json.Some? then 8 + ByteLength(e.json.value) else 0) + (if e.truncated then 17 else 0)
  {
  }

  /** The size of an entry is the UTF-8 length of its JSON text. */
  lemma {:induction false} EntrySize(e: Entry)
    ensures SerializedBytes(e) == ByteLength(EntryText(e)) == |Utf8(EntryText(e))|
  {
    SerializedParts(e);
    MembersSize(e);
    WithDataSize(e);
    MarkedSize(WithData(e), e.truncated);
    ByteLengthIsUtf8Length(EntryText(e));
  }

  // ---- batches -----------------------------------------------------------------------------------

  /** An array without its closing bracket. */
  function Listed(entries: seq<Entry>): JsString {
    if entries == [] then Ascii("[")
    else
      var before, last := entries[..|entries| - 1], entries[|entries| - 1];
      (if before == [] then Ascii("[") else Listed(before) + Ascii(",")) + EntryText(last)
  }

  function BatchText(entries: seq<Entry>): JsString { Listed(entries) + Ascii("]") }

  lemma {:induction false} ListedSize(entries: seq<Entry>)
    requires entries != []
    ensures ByteLength(Listed(entries)) == Total(entries)
  {
    var before, last := entries[..|entries| - 1], entries[|entries| - 1];
    EntrySize(last);
    if before == [] {
      FirstSize(EntryText(last));
    } else {
      ListedSize(before);
      NextSize(Listed(before), EntryText(last));
    }
  }

  lemma {:induction false} FirstSize(text: JsString)
    ensures ByteLength(Ascii("[") + text) == 1 + ByteLength(text)
  {
    AsciiBytes([]);
    assert [] + Ascii("[") == Ascii("[");
    LabelledSize([], Ascii("["), text);
  }

  lemma {:induction false} NextSize(before: JsString, text: JsString)
    ensures ByteLength(before + Ascii(",") + text) == ByteLength(before) + 1 + ByteLength(text)
  {
    LabelledSize(before, Ascii(","), text);
  }

  /** The size of a batch is the UTF-8 length of its JSON text. */
  lemma {:induction false} BatchSize(entries: seq<Entry>)
    ensures ArrayBytes(entries) == |Utf8(BatchText(entries))|
  {
    AsciiBytes(Ascii("["));
    if entries != [] {
      ListedSize(entries);
    }
    EndedSize(Listed(entries), Ascii("]"));
    ByteLengthIsUtf8Length(BatchText(entries));
  }
}
