/** Reading UTF-8 back: what is encoded for a string is valid UTF-8, and says exactly the string, lone surrogates aside. */
module Utf8Text {
  import opened Outcomes
  import opened Text

  predicate IsTail(b: Byte) { 0x80 <= b < 0xC0 }

  /** What a tail octet adds. */
  function Tail(b: Byte): int { b as int - 0x80 }

  predicate AllTails(octets: seq<Byte>, n: nat) {
    n <= |octets| && forall i :: 1 <= i < n ==> IsTail(octets[i])
  }

  /** How many octets a leading octet announces (section 4 of RFC 3629); 0 stands for none. */
  function Announced(lead: Byte): nat {
    if lead < 0x80 then 1
    else if 0xC2 <= lead < 0xE0 then 2
    else if 0xE0 <= lead < 0xF0 then 3
    else if 0xF0 <= lead < 0xF5 then 4
    else 0
  }

  /** The value the first `n` octets spell. */
  function Spelled(octets: seq<Byte>, n: nat): int
    requires 1 <= n <= 4 && n <= |octets|
  {
    if n == 1 then octets[0]
    else if n == 2 then (octets[0] as int - 0xC0) * 0x40 + Tail(octets[1])
    else if n == 3 then (octets[0] as int - 0xE0) * 0x1000 + Tail(octets[1]) * 0x40 + Tail(octets[2])
    else (octets[0] as int - 0xF0) * 0x4_0000 + Tail(octets[1]) * 0x1000 + Tail(octets[2]) * 0x40 + Tail(octets[3])
  }

  /** Neither an overlong form, nor a surrogate, nor beyond Unicode. */
  predicate IsProper(v: int, n: nat) {
    if n <= 2 then 0 <= v < 0x800
    else if n == 3 then 0x800 <= v < 0x1_0000 && !(0xD800 <= v < 0xE000)
    else 0x1_0000 <= v < 0x11_0000
  }

  /** The scalar value the first octets spell, and their number; None for anything that is not UTF-8. */
  function FirstScalar(octets: seq<Byte>): (r: Option<(int, nat)>)
    requires octets != []
    ensures r.Some? ==> 0 < r.value.1 <= |octets| && 0 <= r.value.0 < 0x11_0000
  {
    var n := Announced(octets[0]);
    if n == 0 || !AllTails(octets, n) || !IsProper(Spelled(octets, n), n) then None
    else Some((Spelled(octets, n), n))
  }

  /** A scalar value in UTF-16 (section 2.1 of RFC 2781). */
  function Units(v: int): JsString
    requires 0 <= v < 0x11_0000
  {
    if v < 0x1_0000 then [v] else [0xD800 + (v - 0x1_0000) / 0x400, 0xDC00 + (v - 0x1_0000) % 0x400]
  }

  /** The string that UTF-8 text spells, if it is UTF-8. */
  function Read(octets: seq<Byte>): Option<JsString>
    decreases |octets|
  {
    if octets == [] then Some([])
    else
      match FirstScalar(octets)
      case None => None
      case Some((v, n)) =>
        match Read(octets[n..])
        case None => None
        case Some(later) => Some(Units(v) + later)
  }

  predicate IsLone(c: CodePoint) { |c| == 1 && 0xD800 <= c[0] < 0xE000 }

  /** The code points with U+FFFD in place of lone surrogates. */
  function Repaired(cps: seq<CodePoint>): JsString {
    if cps == [] then [] else (if IsLone(cps[0]) then [0xFFFD] else cps[0]) + Repaired(cps[1..])
  }

  lemma {:induction false} OctetsSpell(v: int)
    requires 0 <= v < 0x11_0000
    ensures var octets := Octets(v);
            && Announced(octets[0]) == |octets| && AllTails(octets, |octets|) && Spelled(octets, |octets|) == v
  {
    if v >= 0x1_0000 {
      assert v / 0x4_0000 == v / 0x1000 / 0x40 && v / 0x1000 == v / 0x40 / 0x40;
    } else if v >= 0x800 {
      assert v / 0x1000 == v / 0x40 / 0x40;
    }
  }

  lemma {:induction false} FirstIsRead(v: int, later: seq<Byte>)
    requires 0 <= v < 0x11_0000 && !(0xD800 <= v < 0xE000)
    ensures Octets(v) + later != [] && FirstScalar(Octets(v) + later) == Some((v, |Octets(v)|))
  {
    OctetsSpell(v);
    SameSpelled(Octets(v), later, |Octets(v)|);
  }

  lemma {:induction false} SameSpelled(octets: seq<Byte>, later: seq<Byte>, n: nat)
    requires 1 <= n <= 4 && n <= |octets|
    ensures (octets + later)[0] == octets[0] && Spelled(octets + later, n) == Spelled(octets, n)
    ensures AllTails(octets, n) ==> AllTails(octets + later, n)
  {
    assert forall i :: 0 <= i < n ==> (octets + later)[i] == octets[i];
  }

  lemma {:induction false} UnitsOfScalar(c: CodePoint)
    ensures Units(Scalar(c)) == if IsLone(c) then [0xFFFD] else c
    ensures !(0xD800 <= Scalar(c) < 0xE000)
  {
    if |c| == 2 {
      var offset := Scalar(c) - 0x1_0000;
      assert offset / 0x400 == c[0] - 0xD800 && offset % 0x400 == c[1] - 0xDC00;
      assert c == [c[0], c[1]];
    } else {
      assert c == [c[0]];
    }
  }

  lemma {:induction false} ReadAll(cps: seq<CodePoint>)
    ensures Read(OctetsOfAll(cps)) == Some(Repaired(cps))
  {
    if cps != [] {
      var first, later := Octets(Scalar(cps[0])), OctetsOfAll(cps[1..]);
      UnitsOfScalar(cps[0]);
      FirstIsRead(Scalar(cps[0]), later);
      assert (first + later)[|first|..] == later;
      ReadAll(cps[1..]);
    }
  }

  predicate NoneIsLone(cps: seq<CodePoint>) { forall i :: 0 <= i < |cps| ==> !IsLone(cps[i]) }

  lemma {:induction false} NoneIsLoneCons(cps: seq<CodePoint>)
    requires cps != []
    ensures NoneIsLone(cps) <==> !IsLone(cps[0]) && NoneIsLone(cps[1..])
  {
    assert forall i :: 0 < i < |cps| ==> cps[i] == cps[1..][i - 1];
    assert forall i :: 0 <= i < |cps| - 1 ==> cps[1..][i] == cps[i + 1];
  }

  lemma {:induction false} RepairedIsSame(cps: seq<CodePoint>)
    ensures Repaired(cps) == Concat(cps) <==> NoneIsLone(cps)
  {
    if cps != [] {
      var first: JsString := if IsLone(cps[0]) then [0xFFFD] else cps[0];
      var c: JsString, a, b := cps[0], Repaired(cps[1..]), Concat(cps[1..]);
      RepairedIsSame(cps[1..]);
      NoneIsLoneCons(cps);
      assert Repaired(cps) == first + a && Concat(cps) == c + b;
      assert (first + a)[..|first|] == first && (c + b)[..|first|] == c;
      assert (first + a)[|first|..] == a && (c + b)[|first|..] == b;
    }
  }

  /** A unit from D800 to DBFF comes right before one from DC00 to DFFF, and these come nowhere else. */
  predicate IsPaired(s: JsString, i: nat)
    requires i < |s|
  {
    && (0xD800 <= s[i] < 0xDC00 ==> i + 1 < |s| && 0xDC00 <= s[i + 1] < 0xE000)
    && (0xDC00 <= s[i] < 0xE000 ==> i > 0 && 0xD800 <= s[i - 1] < 0xDC00)
  }

  ghost predicate WellFormedUtf16(s: JsString) {
    forall i :: 0 <= i < |s| ==> IsPaired(s, i)
  }

  lemma {:induction false} PairedInTail(s: JsString, n: nat, i: nat)
    requires n <= i < |s| && (n == 1 || n == 2)
    requires if n == 1 then !(0xD800 <= s[0] < 0xE000) else 0xD800 <= s[0] < 0xDC00 <= s[1] < 0xE000
    ensures IsPaired(s, i) <==> IsPaired(s[n..], i - n)
  {
    assert s[n..][i - n] == s[i];
    assert i + 1 < |s| ==> s[n..][i - n + 1] == s[i + 1];
    assert i > n ==> s[n..][i - n - 1] == s[i - 1];
  }

  lemma {:induction false} WellFormedTail(s: JsString, n: nat)
    requires n <= |s| && (n == 1 || n == 2)
    requires if n == 1 then !(0xD800 <= s[0] < 0xE000) else 0xD800 <= s[0] < 0xDC00 <= s[1] < 0xE000
    ensures WellFormedUtf16(s) <==> WellFormedUtf16(s[n..])
  {
    forall i | n <= i < |s| ensures IsPaired(s, i) <==> IsPaired(s[n..], i - n) {
      PairedInTail(s, n, i);
    }
    if WellFormedUtf16(s) {
      forall i | 0 <= i < |s| - n ensures IsPaired(s[n..], i) {
        assert IsPaired(s, i + n);
      }
    }
  }

  lemma {:induction false} NoneIsLoneMeans(s: JsString)
    ensures NoneIsLone(CodePoints(s)) <==> WellFormedUtf16(s)
    decreases |s|
  {
    if s != [] {
      var c := FirstCodePoint(s);
      assert CodePoints(s) == [c] + CodePoints(s[|c|..]);
      assert CodePoints(s)[0] == c && CodePoints(s)[1..] == CodePoints(s[|c|..]);
      NoneIsLoneCons(CodePoints(s));
      NoneIsLoneMeans(s[|c|..]);
      if !IsLone(c) {
        WellFormedTail(s, |c|);
      } else {
        assert !IsPaired(s, 0);
      }
    }
  }

  /** The octets of a string are UTF-8; they read as the string with its lone surrogates replaced, and as the string itself
      if and only if it is well-formed UTF-16. */
  lemma {:induction false} Utf8RoundTrip(s: JsString)
    ensures Read(Utf8(s)) == Some(Repaired(CodePoints(s)))
    ensures Read(Utf8(s)) == Some(s) <==> WellFormedUtf16(s)
  {
    ReadAll(CodePoints(s));
    RepairedIsSame(CodePoints(s));
    ConcatCodePoints(s);
    NoneIsLoneMeans(s);
  }
}
