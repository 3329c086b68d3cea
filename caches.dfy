/** The worker's `caches` global: the browser's cache storage, an object whose
    partition list and partitions change in place. */
module Caches {
  import opened Wrappers
  import opened CacheModel

  class CacheStorage {
    /** Partition names in creation order. */
    var names: seq<string>
    /** Each partition's entries, keyed by request URL. */
    var parts: map<string, Partition>

    /** The storage as a value. */
    function State(): Store
      reads this
    {
      Store(names, parts)
    }

    ghost predicate Valid()
      reads this
    {
      CacheModel.Valid(State())
    }

    constructor ()
      ensures Valid() && State() == Store([], map[])
    {
      names := [];
      parts := map[];
    }

    /** `caches.keys()` */
    method Keys() returns (keys: seq<string>)
      requires Valid()
      ensures keys == names
      ensures forall n :: n in keys <==> n in parts
    {
      keys := names;
    }

    /** `caches.open(name)`: creates the partition if it is missing. */
    method Open(name: string)
      requires Valid()
      modifies this
      ensures Valid() && State() == CacheModel.Open(old(State()), name)
    {
      if name !in parts {
        names := names + [name];
        parts := parts[name := map[]];
      }
    }

    /** `cache.put(key, response)` on the opened partition `name`. */
    method Put(name: string, key: string, response: Response)
      requires Valid() && name in parts
      modifies this
      ensures Valid()
      ensures names == old(names) && parts == old(parts)[name := old(parts)[name][key := response]]
    {
      parts := parts[name := parts[name][key := response]];
    }

    /** `caches.delete(name)`: answers whether the partition existed. */
    method Delete(name: string) returns (existed: bool)
      requires Valid()
      modifies this
      ensures Valid() && State() == CacheModel.Delete(old(State()), name)
      ensures existed <==> name in old(parts)
    {
      existed := name in parts;
      names := Without(names, name);
      parts := parts - {name};
    }

    /** `caches.match(key)`: the first partition, oldest first, holding the key. */
    method Match(key: string) returns (r: Option<Response>)
      requires Valid()
      ensures r == CacheModel.Match(State(), key)
      ensures r.Some? <==> exists n :: n in parts && key in parts[n]
    {
      r := CacheModel.Match(State(), key);
    }
  }
}
