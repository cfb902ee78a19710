/** Shared wrappers and sequence helpers used by every other module. */
module Common {

  datatype Option<T> = None | Some(value: T)

  /** A Python call that either returns a value or raises an exception. */
  datatype Result<T, E> = Success(value: T) | Failure(error: E)

  predicate NoDuplicates<T(==)>(s: seq<T>) {
    forall i, j :: 0 <= i < j < |s| ==> s[i] != s[j]
  }

  /** `list(set(xs))`: the distinct elements of `xs`. Python enumerates a set
      in hash order; this enumeration keeps first occurrences, and callers
      rely only on what the contract says. */
  method Distinct<T(==)>(xs: seq<T>) returns (r: seq<T>)
    ensures NoDuplicates(r)
    ensures forall x :: x in r <==> x in xs
  {
    r := [];
    for i := 0 to |xs|
      invariant NoDuplicates(r)
      invariant forall x :: x in r <==> x in xs[..i]
    {
      if xs[i] !in r {
        r := r + [xs[i]];
      }
      assert xs[..i + 1] == xs[..i] + [xs[i]];
    }
    assert xs[..|xs|] == xs;
  }

  /** A Python dict: keys in insertion order, one value per key. */
  datatype OrderedMap<K, V> = OrderedMap(keys: seq<K>, entries: map<K, V>)

  ghost predicate ValidMap<K(!new), V>(m: OrderedMap<K, V>) {
    NoDuplicates(m.keys) && forall k :: k in m.entries <==> k in m.keys
  }

  function EmptyMap<K(==,!new), V>(): (m: OrderedMap<K, V>)
    ensures ValidMap(m) && m.keys == []
  {
    OrderedMap([], map[])
  }

  /** `d[k] = v`: a new key goes to the end, an existing key keeps its place
      and takes the new value. */
  function Put<K(==,!new), V>(m: OrderedMap<K, V>, k: K, v: V): (r: OrderedMap<K, V>)
    requires ValidMap(m)
    ensures ValidMap(r)
    ensures r.entries == m.entries[k := v]
    ensures k in m.entries ==> r.keys == m.keys
    ensures k !in m.entries ==> r.keys == m.keys + [k]
  {
    OrderedMap(if k in m.entries then m.keys else m.keys + [k], m.entries[k := v])
  }
}
