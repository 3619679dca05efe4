/** A JavaScript plain object used as a dictionary, modelled as an
    association list in insertion order: `for (k in obj)` and
    `Object.keys(obj)` visit keys in that order, and `obj[k] = v` replaces the
    value in place when `k` is already present and appends otherwise. */
module OrderedMap {
  import opened Common

  type Assoc<K, V> = seq<(K, V)>

  function Keys<K, V>(m: Assoc<K, V>): (ks: seq<K>)
    ensures |ks| == |m|
    ensures forall i :: 0 <= i < |m| ==> ks[i] == m[i].0
  {
    if m == [] then [] else [m[0].0] + Keys(m[1..])
  }

  predicate HasKey<K(==), V>(m: Assoc<K, V>, k: K)
  {
    exists i :: 0 <= i < |m| && m[i].0 == k
  }

  /** A JavaScript object never holds the same key twice. */
  predicate DistinctKeys<K(==), V>(m: Assoc<K, V>)
  {
    forall i, j :: 0 <= i < j < |m| ==> m[i].0 != m[j].0
  }

  /** Position of the first entry for `k`. */
  function IndexOf<K(==), V>(m: Assoc<K, V>, k: K): (i: nat)
    requires HasKey(m, k)
    ensures i < |m| && m[i].0 == k
    ensures forall j :: 0 <= j < i ==> m[j].0 != k
  {
    if m[0].0 == k then 0 else 1 + IndexOf(m[1..], k)
  }

  /** `obj[k]` when present, `fallback` otherwise. */
  function Get<K(==), V>(m: Assoc<K, V>, k: K, fallback: V): V
  {
    if m == [] then fallback
    else if m[0].0 == k then m[0].1
    else Get(m[1..], k, fallback)
  }

  /** `obj[k] = v`. */
  function Put<K(==), V>(m: Assoc<K, V>, k: K, v: V): Assoc<K, V>
  {
    if m == [] then [(k, v)]
    else if m[0].0 == k then [(k, v)] + m[1..]
    else [m[0]] + Put(m[1..], k, v)
  }

  /** A key is held by a non-empty object exactly when it is the first key
      or is held by the rest. */
  lemma HasKeyCons<K, V>(m: Assoc<K, V>, k: K)
    requires m != []
    ensures HasKey(m, k) <==> m[0].0 == k || HasKey(m[1..], k)
  {
    if HasKey(m[1..], k) {
      var j :| 0 <= j < |m[1..]| && m[1..][j].0 == k;
      assert m[j + 1].0 == k;
    }
    if HasKey(m, k) && m[0].0 != k {
      var j :| 0 <= j < |m| && m[j].0 == k;
      assert m[1..][j - 1].0 == k;
    }
  }

  /** Reading yields the value of the first entry for the key, or the
      fallback when there is none. */
  lemma {:induction false} GetShape<K, V>(m: Assoc<K, V>, k: K, fallback: V)
    ensures HasKey(m, k) ==> Get(m, k, fallback) == m[IndexOf(m, k)].1
    ensures !HasKey(m, k) ==> Get(m, k, fallback) == fallback
  {
    if m != [] {
      HasKeyCons(m, k);
      if m[0].0 != k {
        GetShape(m[1..], k, fallback);
        if HasKey(m, k) {
          assert IndexOf(m, k) == 1 + IndexOf(m[1..], k);
        }
      }
    }
  }

  /** Writing replaces the first entry for the key in place, or appends a
      new entry at the end. */
  lemma {:induction false} PutShape<K, V>(m: Assoc<K, V>, k: K, v: V)
    ensures HasKey(m, k) ==> Put(m, k, v) == m[IndexOf(m, k) := (k, v)]
    ensures !HasKey(m, k) ==> Put(m, k, v) == m + [(k, v)]
  {
    if m != [] {
      HasKeyCons(m, k);
      if m[0].0 != k {
        PutShape(m[1..], k, v);
        var t := Put(m[1..], k, v);
        assert Put(m, k, v) == [m[0]] + t;
        if HasKey(m, k) {
          var i := IndexOf(m[1..], k);
          assert IndexOf(m, k) == 1 + i;
          assert [m[0]] + m[1..][i := (k, v)] == m[i + 1 := (k, v)];
        } else {
          assert [m[0]] + (m[1..] + [(k, v)]) == m + [(k, v)];
        }
      }
    }
  }

  lemma PutHasKey<K, V>(m: Assoc<K, V>, k: K, v: V, k': K)
    ensures HasKey(Put(m, k, v), k') <==> k' == k || HasKey(m, k')
  {
    PutShape(m, k, v);
    var r := Put(m, k, v);
    if HasKey(m, k) {
      var i := IndexOf(m, k);
      assert r[i].0 == k;
      if HasKey(m, k') {
        var j :| 0 <= j < |m| && m[j].0 == k';
        assert r[j].0 == k';
      }
      if HasKey(r, k') {
        var j :| 0 <= j < |r| && r[j].0 == k';
        if j != i { assert m[j].0 == k'; }
      }
    } else {
      assert r[|m|].0 == k;
      if HasKey(m, k') {
        var j :| 0 <= j < |m| && m[j].0 == k';
        assert r[j].0 == k';
      }
      if HasKey(r, k') {
        var j :| 0 <= j < |r| && r[j].0 == k';
        if j != |m| { assert m[j].0 == k'; }
      }
    }
  }

  lemma PutGet<K, V>(m: Assoc<K, V>, k: K, v: V, k': K, fallback: V)
    requires DistinctKeys(m)
    ensures Get(Put(m, k, v), k', fallback) == if k' == k then v else Get(m, k', fallback)
  {
    PutKeepsDistinct(m, k, v);
    PutHasKey(m, k, v, k');
    PutShape(m, k, v);
    var r := Put(m, k, v);
    GetShape(r, k', fallback);
    GetShape(m, k', fallback);
    if k' == k {
      var i := if HasKey(m, k) then IndexOf(m, k) else |m|;
      assert r[i] == (k, v);
      assert IndexOf(r, k) == i;
    } else if HasKey(m, k') {
      var i := IndexOf(m, k');
      assert r[i] == m[i];
      assert IndexOf(r, k') == i;
    }
  }

  lemma PutKeepsDistinct<K, V>(m: Assoc<K, V>, k: K, v: V)
    requires DistinctKeys(m)
    ensures DistinctKeys(Put(m, k, v))
    ensures |Put(m, k, v)| == if HasKey(m, k) then |m| else |m| + 1
  {
    PutShape(m, k, v);
    var r := Put(m, k, v);
    if HasKey(m, k) {
      var x := IndexOf(m, k);
      forall i, j | 0 <= i < j < |r| ensures r[i].0 != r[j].0 {
        assert r[i].0 == m[i].0 && r[j].0 == m[j].0;
      }
    } else {
      forall i, j | 0 <= i < j < |r| ensures r[i].0 != r[j].0 {
        if j == |m| { assert m[i].0 == r[i].0; }
      }
    }
  }

  /** Σ of the values of a number-valued object. */
  function Sum<K>(m: Assoc<K, int>): int
  {
    if m == [] then 0 else m[0].1 + Sum(m[1..])
  }

  lemma SumAppend<K>(a: Assoc<K, int>, b: Assoc<K, int>)
    ensures Sum(a + b) == Sum(a) + Sum(b)
  {
    if a == [] {
      assert a + b == b;
    } else {
      assert (a + b)[1..] == a[1..] + b;
      SumAppend(a[1..], b);
    }
  }

  /** Overwriting one entry changes the sum by the difference of values. */
  lemma {:induction false} SumPut<K>(m: Assoc<K, int>, k: K, v: int)
    requires DistinctKeys(m)
    ensures Sum(Put(m, k, v)) == Sum(m) - Get(m, k, 0) + v
  {
    if m == [] {
    } else if m[0].0 == k {
    } else {
      var t := m[1..];
      assert DistinctKeys(t) by {
        forall i, j | 0 <= i < j < |t| ensures t[i].0 != t[j].0 {
          assert t[i] == m[i + 1] && t[j] == m[j + 1];
        }
      }
      SumPut(t, k, v);
      HasKeyCons(m, k);
      assert Put(m, k, v)[1..] == Put(t, k, v);
    }
  }

  /** Values of a Σ-object are non-negative. */
  predicate NonNegative<K>(m: Assoc<K, int>)
  {
    forall i :: 0 <= i < |m| ==> m[i].1 >= 0
  }
}
