/** Log entries as they cross the wire, and their order. */
module LogTrace {
  import opened Outcomes
  import opened Text
  import opened Json

  datatype Level = Debug | Info | Warn | Error

  function Weight(l: Level): nat {
    match l
    case Debug => 0
    case Info => 1
    case Warn => 2
    case Error => 3
  }

  /** The levels a minimum level admits: itself and all that are more severe. */
  function From(min: Level): set<Level> {
    match min
    case Debug => {Debug, Info, Warn, Error}
    case Info => {Info, Warn, Error}
    case Warn => {Warn, Error}
    case Error => {Error}
  }

  lemma {:induction false} FromIsByWeight(l: Level, min: Level)
    ensures Weight(l) >= Weight(min) <==> l in From(min)
  {
  }

  /** `source` is empty until a consumer stores the entry. */
  datatype Entry = Entry(level: Level, ts: int, message: JsString, json: Option<JsString>, seqNo: nat, truncated: bool, source: string)

  /** (ts, seq) order, not strict. */
  predicate AtMost(a: Entry, b: Entry) { a.ts < b.ts || (a.ts == b.ts && a.seqNo <= b.seqNo) }

  ghost predicate Sorted(entries: seq<Entry>) {
    forall i, j :: 0 <= i < j < |entries| ==> AtMost(entries[i], entries[j])
  }

  // ---- serialized size -----------------------------------------------------------------------------

  function Name(l: Level): JsString {
    match l
    case Debug => Ascii("debug")
    case Info => Ascii("info")
    case Warn => Ascii("warn")
    case Error => Ascii("error")
  }

  /** UTF-8 length of one code point inside a JSON string: quotes, backslashes and the named controls take two bytes,
      other controls and lone surrogates the six of a hexadecimal escape. */
  function EscapedBytes(c: CodePoint): nat {
    if |c| == 2 then 4
    else if c[0] == 0x22 || c[0] == 0x5C || c[0] in {0x08, 0x09, 0x0A, 0x0C, 0x0D} then 2
    else if c[0] < 0x20 || HighSurrogate(c[0]) || LowSurrogate(c[0]) then 6
    else CodePointBytes(c)
  }

  function AllEscapedBytes(cps: seq<CodePoint>): nat {
    if cps == [] then 0 else EscapedBytes(cps[0]) + AllEscapedBytes(cps[1..])
  }

  /** With the quotes around. */
  function StringBytes(s: JsString): nat { 2 + AllEscapedBytes(CodePoints(s)) }

  function IntBytes(n: int): nat { if n < 0 then 1 + |Decimal(-n)| else |Decimal(n)| }

  /** Bytes of the entry as JSON text: names, colons, commas and braces, and the values; `json` is its own JSON text. */
  function SerializedBytes(e: Entry): nat {
    |Ascii("{'level':,'ts':,'message':,'seq':}")|
    + StringBytes(Name(e.level)) + IntBytes(e.ts) + StringBytes(e.message) + IntBytes(e.seqNo)
    + (if e.json.Some? then |Ascii(",'json':")| + ByteLength(e.json.value) else 0)
    + (if e.truncated then |Ascii(",'truncated':true")| else 0)
  }

  lemma {:induction false} EscapedAppend(a: seq<CodePoint>, b: seq<CodePoint>)
    ensures AllEscapedBytes(a + b) == AllEscapedBytes(a) + AllEscapedBytes(b)
  {
    if a == [] {
      assert a + b == b;
    } else {
      assert (a + b)[1..] == a[1..] + b;
      EscapedAppend(a[1..], b);
    }
  }

  lemma {:induction false} JoinedBytes(a: JsString, b: JsString)
    requires !Fuses(a, b)
    ensures AllEscapedBytes(CodePoints(a + b)) == AllEscapedBytes(CodePoints(a)) + AllEscapedBytes(CodePoints(b))
  {
    CodePointsAppend(a, b);
    EscapedAppend(CodePoints(a), CodePoints(b));
  }

  lemma {:induction false} SingleBytes(c: CodePoint)
    ensures AllEscapedBytes(CodePoints(c)) == EscapedBytes(c)
  {
    assert FirstCodePoint(c) == c && c[|c|..] == [];
    assert CodePoints(c) == [c] + CodePoints(c[|c|..]);
    assert CodePoints(c) == [c] && [c][1..] == [];
    assert AllEscapedBytes([c]) == EscapedBytes(c) + AllEscapedBytes([c][1..]);
  }

  /** Every unit takes at least a byte. */
  lemma {:induction false} UnitsTakeBytes(s: JsString)
    ensures AllEscapedBytes(CodePoints(s)) >= |s|
    decreases |s|
  {
    if s != [] {
      var c := FirstCodePoint(s);
      UnitsTakeBytes(s[|c|..]);
      assert CodePoints(s) == [c] + CodePoints(s[|c|..]);
      assert CodePoints(s)[0] == c && CodePoints(s)[1..] == CodePoints(s[|c|..]);
      assert EscapedBytes(c) >= |c|;
    }
  }

  /** A cut that splits no surrogate pair frees at least a byte for every unit it removes. */
  lemma {:induction false} CuttingFrees(s: JsString, k: nat)
    requires k <= |s| && !Fuses(s[..k], s[k..])
    ensures StringBytes(s) - StringBytes(s[..k]) >= |s| - k
  {
    assert s == s[..k] + s[k..];
    JoinedBytes(s[..k], s[k..]);
    UnitsTakeBytes(s[k..]);
  }

  /** Cutting a message makes its JSON text longer if and only if the cut falls inside a surrogate pair, whose remaining
      half is escaped in six bytes where the pair took four, and less than these two bytes stood behind the pair. */
  lemma {:induction false} WhenCuttingGrows(s: JsString, k: nat)
    requires k <= |s|
    ensures StringBytes(s[..k]) > StringBytes(s) <==>
              Fuses(s[..k], s[k..]) && AllEscapedBytes(CodePoints(s[k + 1..])) < 2
  {
    if !Fuses(s[..k], s[k..]) {
      assert s == s[..k] + s[k..];
      JoinedBytes(s[..k], s[k..]);
    } else {
      var front, high, pair, rest := s[..k - 1], [s[k - 1]], [s[k - 1], s[k]], s[k + 1..];
      assert s[..k] == front + high;
      assert s == front + pair + rest;
      JoinedBytes(front, high);
      JoinedBytes(front, pair);
      JoinedBytes(front + pair, rest);
      SingleBytes(high);
      SingleBytes(pair);
    }
  }
}
