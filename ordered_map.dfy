/** A JavaScript `Map` from strings: a finite map plus the insertion order
    that `Map.prototype.values()` iterates in. */
module OrderedMap {
  import opened Seqs
  import opened Wrappers

  datatype OMap<V> = OMap(keys: seq<string>, entries: map<string, V>)

  /** Every key appears once in the order, and the order lists exactly the
      keys of the map. */
  ghost predicate Valid<V>(m: OMap<V>) {
    Distinct(m.keys) && (forall k :: k in m.entries <==> k in m.keys)
  }

  function Empty<V>(): (r: OMap<V>)
    ensures Valid(r) && r.keys == [] && r.entries == map[]
  {
    OMap([], map[])
  }

  /** `m.get(k)`, with `undefined` as `None`. */
  function Get<V>(m: OMap<V>, k: string): (r: Option<V>)
    ensures r.Some? <==> k in m.entries
    ensures r.Some? ==> r.value == m.entries[k]
  {
    if k in m.entries then Some(m.entries[k]) else None
  }

  /** `m.set(k, v)`: an existing key keeps its position, a new key goes last. */
  function Set<V>(m: OMap<V>, k: string, v: V): (r: OMap<V>)
    requires Valid(m)
    ensures Valid(r)
    ensures r.entries == m.entries[k := v]
    ensures k in m.entries ==> r.keys == m.keys
    ensures k !in m.entries ==> r.keys == m.keys + [k]
  {
    if k in m.entries then OMap(m.keys, m.entries[k := v])
    else OMap(m.keys + [k], m.entries[k := v])
  }

  function Other(k: string): string -> bool {
    x => x != k
  }

  /** `m.delete(k)`: the key leaves the order, the others keep theirs. */
  function Delete<V>(m: OMap<V>, k: string): (r: OMap<V>)
    requires Valid(m)
    ensures Valid(r)
    ensures r.entries == m.entries - {k}
    ensures r.keys == Filter(m.keys, Other(k))
  {
    FilterDistinct(m.keys, Other(k));
    OMap(Filter(m.keys, Other(k)), m.entries - {k})
  }

  /** `Array.from(m.values())`. */
  function Values<V>(m: OMap<V>): (r: seq<V>)
    requires Valid(m)
    ensures |r| == |m.keys|
    ensures forall i :: 0 <= i < |r| ==> r[i] == m.entries[m.keys[i]]
  {
    seq(|m.keys|, i requires 0 <= i < |m.keys| => m.entries[m.keys[i]])
  }

  /** Overwriting a present key replaces its value in place in the
      iteration order. */
  lemma ValuesSetPresent<V>(m: OMap<V>, k: string, v: V, i: nat)
    requires Valid(m) && i < |m.keys| && m.keys[i] == k
    ensures Values(Set(m, k, v)) == Values(m)[i := v]
  {
    var r := Set(m, k, v);
    forall j | 0 <= j < |m.keys| ensures Values(r)[j] == Values(m)[i := v][j] {
      if j != i {
        assert m.keys[j] != k;
      }
    }
  }

  /** A new key's value is iterated last. */
  lemma ValuesSetAbsent<V>(m: OMap<V>, k: string, v: V)
    requires Valid(m) && k !in m.entries
    ensures Values(Set(m, k, v)) == Values(m) + [v]
  {
    var r := Set(m, k, v);
    forall j | 0 <= j < |m.keys| ensures Values(r)[j] == Values(m)[j] {
      assert m.keys[j] in m.entries;
    }
  }

  /** A key is in the order iff it has an index there. */
  lemma IndexOfKey<V>(m: OMap<V>, k: string) returns (i: nat)
    requires Valid(m) && k in m.entries
    ensures i < |m.keys| && m.keys[i] == k
  {
    assert k in m.keys;
    i :| i < |m.keys| && m.keys[i] == k;
  }
}
