/** The bounded map that holds the server's guards; each method is one critical section. */
module AtomicMap {
  class AtomicMap<K(==), V> {
    const limit: nat
    var entries: map<K, V>

    constructor (limit: nat)
      ensures this.limit == limit && entries == map[]
    {
      this.limit := limit;
      entries := map[];
    }

    /** The precondition is what `add` waits for. */
    method Add(key: K, value: V)
      requires key in entries || |entries| < limit
      modifies this
      ensures entries == old(entries)[key := value]
    {
      entries := entries[key := value];
    }

    method Remove(key: K)
      modifies this
      ensures entries == old(entries) - {key}
    {
      entries := entries - {key};
    }

    method Has(key: K) returns (present: bool)
      ensures present <==> key in entries
    {
      present := key in entries;
    }
  }
}
