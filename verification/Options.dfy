/**
 What the other modules share: the conventional optional value, used wherever the C code
 returns NULL or "not found", lookups in maps, and lists without duplicates.
 */
module Options {
  datatype Option<+T> = None | Some(value: T)

  /** The value a map holds for a key, if any. */
  function Lookup<K, V>(m: map<K, V>, k: K): Option<V> {
    if k in m then Some(m[k]) else None
  }

  lemma SameLookups<K, V>(a: map<K, V>, b: map<K, V>)
    requires forall k :: Lookup(a, k) == Lookup(b, k)
    ensures a == b
  {
    assert forall k :: k in a <==> Lookup(a, k).Some?;
    assert forall k :: k in b <==> Lookup(b, k).Some?;
    assert forall k :: k in a ==> Lookup(a, k) == Some(a[k]) && Lookup(b, k) == Some(b[k]);
  }

  predicate NoDup<T(==)>(s: seq<T>) {
    forall i, j :: 0 <= i < j < |s| ==> s[i] != s[j]
  }

  /** The list after x has been taken off it. */
  function Without<T(==)>(s: seq<T>, x: T): seq<T> {
    if s == [] then []
    else
      var n := |s| - 1;
      if s[n] == x then Without(s[..n], x) else Without(s[..n], x) + [s[n]]
  }

  lemma {:induction false} WithoutElems<T>(s: seq<T>, x: T)
    requires NoDup(s)
    ensures NoDup(Without(s, x))
    ensures forall y :: y in Without(s, x) <==> y in s && y != x
  {
    if s != [] {
      var n := |s| - 1;
      WithoutElems(s[..n], x);
      assert forall y :: y in s <==> y in s[..n] || y == s[n];
      assert s[n] !in s[..n];
    }
  }
}
