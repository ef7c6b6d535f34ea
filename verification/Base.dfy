/** Optional values and lookups shared by every module. */
module Base {

  datatype Option<+T> = None | Some(value: T) {
    function GetOr(default: T): T {
      match this
      case Some(v) => v
      case None => default
    }
  }

  function Get<K, V>(m: map<K, V>, k: K): Option<V> {
    if k in m then Some(m[k]) else None
  }

  /// Two maps that look up the same are the same.
  lemma SameLookups<K, V>(x: map<K, V>, y: map<K, V>)
    requires forall k :: Get(x, k) == Get(y, k)
    ensures x == y
  {
    forall k ensures k in x <==> k in y { assert Get(x, k) == Get(y, k); }
    forall k | k in x ensures x[k] == y[k] { assert Get(x, k) == Get(y, k); }
  }

  function Elems<T>(s: seq<T>): set<T> {
    set x | x in s
  }

  /// No element twice.
  predicate Distinct<T(==)>(s: seq<T>) {
    forall i, j :: 0 <= i < j < |s| ==> s[i] != s[j]
  }

  /// The numbers below `n`.
  function Everyone(n: nat): (s: set<int>)
    ensures forall i :: i in s <==> 0 <= i < n
  {
    if n == 0 then {} else Everyone(n - 1) + {n - 1}
  }

  // ---- sizes of sets ----

  lemma FewerLeft(all: set<int>, before: set<int>, after: set<int>)
    requires before <= after <= all
    ensures before != after ==> |all - after| < |all - before|
  {
    if v :| v in after && v !in before {
      SmallerSet(all - after, all - before, v);
    } else {
      assert after <= before by { forall v | v in after ensures v in before {} }
    }
  }

  lemma SmallerSet<T>(s: set<T>, t: set<T>, v: T)
    requires s <= t && v in t && v !in s
    ensures |s| < |t|
  {
    assert t == s + (t - s) && v in t - s;
  }
}
