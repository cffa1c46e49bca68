/** JavaScript `Map`: iteration follows first insertion, and overwriting a key keeps its place. */
module Ordered {
  datatype JsMap<K(==), V> = JsMap(order: seq<K>, vals: map<K, V>)

  /** Every key stands exactly once in the order. */
  ghost predicate Valid<K, V>(m: JsMap<K, V>) {
    && NoRepetition(m.order)
    && (forall k :: k in m.order ==> k in m.vals)
    && (forall k :: k in m.vals ==> k in m.order)
  }

  function Empty<K(==), V>(): JsMap<K, V> { JsMap([], map[]) }

  function Without<K(==)>(s: seq<K>, k: K): seq<K> {
    if s == [] then [] else (if s[0] == k then [] else [s[0]]) + Without(s[1..], k)
  }

  function Put<K(==), V>(m: JsMap<K, V>, k: K, v: V): JsMap<K, V> {
    JsMap(if k in m.vals then m.order else m.order + [k], m.vals[k := v])
  }

  function Delete<K(==), V>(m: JsMap<K, V>, k: K): JsMap<K, V> {
    JsMap(Without(m.order, k), m.vals - {k})
  }

  lemma {:induction false} PutIsValid<K, V>(m: JsMap<K, V>, k: K, v: V)
    requires Valid(m)
    ensures Valid(Put(m, k, v))
  {
  }

  lemma {:induction false} DeleteIsValid<K, V>(m: JsMap<K, V>, k: K)
    requires Valid(m)
    ensures Valid(Delete(m, k))
  {
    WithoutFacts(m.order, k);
  }

  /** `a` stands somewhere before `b`. */
  ghost predicate Before<K>(s: seq<K>, a: K, b: K) {
    exists i, j :: 0 <= i < j < |s| && s[i] == a && s[j] == b
  }

  ghost predicate NoRepetition<K>(s: seq<K>) { forall i, j :: 0 <= i < j < |s| ==> s[i] != s[j] }

  lemma {:induction false} WithoutMembers<K>(s: seq<K>, k: K)
    ensures forall x :: x in Without(s, k) ==> x in s && x != k
    ensures forall x :: x in s && x != k ==> x in Without(s, k)
  {
    if s != [] {
      WithoutMembers(s[1..], k);
      assert s == [s[0]] + s[1..];
    }
  }

  lemma {:induction false} BeforeInRest<K>(s: seq<K>, a: K, b: K)
    requires s != [] && (Before(s[1..], a, b) || (a == s[0] && b in s[1..]))
    ensures Before(s, a, b)
  {
    if Before(s[1..], a, b) {
      var i, j :| 0 <= i < j < |s[1..]| && s[1..][i] == a && s[1..][j] == b;
      assert s[i + 1] == a && s[j + 1] == b;
    } else {
      var j :| 0 <= j < |s[1..]| && s[1..][j] == b;
      assert s[0] == a && s[j + 1] == b;
    }
  }

  lemma {:induction false} WithoutOrder<K>(s: seq<K>, k: K, a: K, b: K)
    requires Before(Without(s, k), a, b)
    ensures Before(s, a, b)
  {
    if s != [] {
      var rest, w := Without(s[1..], k), Without(s, k);
      var i, j :| 0 <= i < j < |w| && w[i] == a && w[j] == b;
      if s[0] != k && i == 0 {
        assert w[j] == rest[j - 1];
        WithoutMembers(s[1..], k);
      } else {
        var d := if s[0] == k then 0 else 1;
        assert rest[i - d] == a && rest[j - d] == b;
        WithoutOrder(s[1..], k, a, b);
      }
      BeforeInRest(s, a, b);
    }
  }

  lemma {:induction false} WithoutRepetition<K>(s: seq<K>, k: K)
    requires NoRepetition(s)
    ensures NoRepetition(Without(s, k))
  {
    if s != [] {
      assert s[0] !in s[1..];
      WithoutRepetition(s[1..], k);
      WithoutMembers(s[1..], k);
    }
  }

  /** Removing a key leaves the others, in the same order. */
  lemma {:induction false} WithoutFacts<K>(s: seq<K>, k: K)
    ensures forall x :: x in Without(s, k) ==> x in s && x != k
    ensures forall x :: x in s && x != k ==> x in Without(s, k)
    ensures forall a, b :: Before(Without(s, k), a, b) ==> Before(s, a, b)
    ensures NoRepetition(s) ==> NoRepetition(Without(s, k))
  {
    WithoutMembers(s, k);
    forall a, b | Before(Without(s, k), a, b) ensures Before(s, a, b) {
      WithoutOrder(s, k, a, b);
    }
    if NoRepetition(s) {
      WithoutRepetition(s, k);
    }
  }

  lemma {:induction false} SizeIsOrder<K, V>(m: JsMap<K, V>)
    requires Valid(m)
    ensures |m.vals| == |m.order|
  {
    KeySet(m.order);
    assert m.vals.Keys == set k | k in m.order;
  }

  lemma {:induction false} KeySet<K>(s: seq<K>)
    requires forall i, j :: 0 <= i < j < |s| ==> s[i] != s[j]
    ensures |set k | k in s| == |s|
  {
    if s != [] {
      KeySet(s[1..]);
      assert (set k | k in s) == {s[0]} + (set k | k in s[1..]);
    }
  }

  lemma {:induction false} SubsetSize<T>(a: set<T>, b: set<T>)
    requires a <= b
    ensures |a| <= |b|
  {
    assert b == a + (b - a);
  }
}
