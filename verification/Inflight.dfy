/** The table of in-progress fetches: a map cut into shards by the key's high half. */
module Inflight {

  datatype Key = Key(hi: nat, lo: nat)

  class Table<V> {
    const shards: array<map<Key, V>>
    ghost var table: map<Key, V>   // the one map the shards make up

    /** The shard count is a power of two, so masking the high half is this remainder. */
    function Shard(key: Key): (i: nat)
      requires shards.Length > 0
      ensures i < shards.Length
    {
      key.hi % shards.Length
    }

    ghost predicate Valid()
      reads this, shards
    {
      && shards.Length > 0
      && (forall i, k | 0 <= i < shards.Length && k in shards[i] :: Shard(k) == i)
      && (forall k :: k in table <==> k in shards[Shard(k)])
      && (forall k | k in table :: table[k] == shards[Shard(k)][k])
    }

    constructor (count: nat)
      requires count > 0
      ensures Valid() && fresh(shards) && table == map[]
    {
      shards := new map<Key, V>[count](_ => map[]);
      table := map[];
    }

    /** `loadOrStore`: the entry already there, or the one given. */
    method LoadOrStore(key: Key, v: V) returns (actual: V, loaded: bool)
      requires Valid()
      modifies this, shards
      ensures Valid() && (loaded <==> key in old(table))
      ensures table == if loaded then old(table) else old(table)[key := v]
      ensures key in table && actual == table[key] && (!loaded ==> actual == v)
    {
      var s := Shard(key);
      if key !in shards[s] {
        shards[s] := shards[s][key := v];
        table := table[key := v];
        return v, false;
      }
      return shards[s][key], true;
    }

    /** `delete`. */
    method Delete(key: Key)
      requires Valid()
      modifies this, shards
      ensures Valid() && table == old(table) - {key}
    {
      var s := Shard(key);
      shards[s] := shards[s] - {key};
      table := table - {key};
    }
  }
}
