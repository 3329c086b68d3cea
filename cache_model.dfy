/** The browser's cache storage as a value: named partitions, each a map from
    request URL to response, and the eviction of stale partitions. */
module CacheModel {
  import opened Wrappers
  import opened Config

  datatype Response = Response(status: int, body: string)

  /** `response.ok`: the status is in the success range. */
  predicate IsOk(r: Response) {
    200 <= r.status <= 299
  }

  /** One named cache: request URL to stored response. */
  type Partition = map<string, Response>

  /** The partition names in creation order (the order `caches.keys()`
      reports and `caches.match` searches) and the partitions themselves. */
  datatype Store = Store(names: seq<string>, parts: map<string, Partition>)

  predicate Distinct(ns: seq<string>) {
    forall i, j :: 0 <= i < j < |ns| ==> ns[i] != ns[j]
  }

  /** Each partition is listed exactly once. */
  ghost predicate Valid(s: Store) {
    Distinct(s.names) && (forall n :: n in s.names <==> n in s.parts)
  }

  /** The entries partition `name` holds: none when it does not exist yet. */
  function Earlier(s: Store, name: string): Partition {
    if name in s.parts then s.parts[name] else map[]
  }

  /** `caches.open(name)`: a missing partition is created empty and listed last. */
  function Open(s: Store, name: string): (t: Store)
    ensures Valid(s) ==> Valid(t)
    ensures name in t.parts && t.parts[name] == Earlier(s, name)
    ensures t.names == if name in s.parts then s.names else s.names + [name]
    ensures forall n :: n != name ==> (n in t.parts <==> n in s.parts)
    ensures forall n :: n != name && n in s.parts ==> t.parts[n] == s.parts[n]
  {
    if name in s.parts then s else Store(s.names + [name], s.parts[name := map[]])
  }

  /** `(await caches.open(name)).put(key, response)`: the entry is written into
      that one partition, replacing any earlier entry for the same key. */
  function Put(s: Store, name: string, key: string, response: Response): (t: Store)
    ensures Valid(s) ==> Valid(t)
    ensures name in t.parts
    ensures t.parts[name] == Earlier(s, name)[key := response]
    ensures t.names == if name in s.parts then s.names else s.names + [name]
    ensures forall n :: n != name ==> (n in t.parts <==> n in s.parts)
    ensures forall n :: n != name && n in s.parts ==> t.parts[n] == s.parts[n]
  {
    var o := Open(s, name);
    Store(o.names, o.parts[name := o.parts[name][key := response]])
  }

  lemma DistinctCons(x: string, rest: seq<string>)
    requires Distinct(rest) && x !in rest
    ensures Distinct([x] + rest)
  {
    forall i, j | 0 <= i < j < |[x] + rest|
      ensures ([x] + rest)[i] != ([x] + rest)[j]
    {
      if i > 0 {
        assert ([x] + rest)[i] == rest[i - 1];
      }
      assert ([x] + rest)[j] == rest[j - 1];
    }
  }

  /** `ns` with every occurrence of `n` removed. */
  function Without(ns: seq<string>, n: string): (r: seq<string>)
    ensures forall x :: x in r <==> x in ns && x != n
    ensures Distinct(ns) ==> Distinct(r)
  {
    if ns == [] then []
    else if ns[0] == n then Without(ns[1..], n)
    else
      var rest := Without(ns[1..], n);
      if Distinct(ns) then
        assert ns[0] !in ns[1..] by {
          forall k | 0 <= k < |ns[1..]| ensures ns[1..][k] != ns[0] { assert ns[1..][k] == ns[k + 1]; }
        }
        DistinctCons(ns[0], rest);
        [ns[0]] + rest
      else [ns[0]] + rest
  }

  /** `caches.delete(name)`: the partition and all its entries are gone. */
  function Delete(s: Store, name: string): (t: Store)
    ensures Valid(s) ==> Valid(t)
    ensures name !in t.parts && name !in t.names
    ensures forall n :: n != name ==> (n in t.parts <==> n in s.parts) && (n in t.names <==> n in s.names)
    ensures forall n :: n in t.parts ==> t.parts[n] == s.parts[n]
  {
    Store(Without(s.names, name), s.parts - {name})
  }

  /** The partition `name` exists and holds an entry for `key`. */
  predicate Holds(parts: map<string, Partition>, name: string, key: string) {
    name in parts && key in parts[name]
  }

  /** The first partition, in the order given, that holds `key` answers. */
  function MatchIn(names: seq<string>, parts: map<string, Partition>, key: string): (r: Option<Response>)
    ensures r.Some? <==> exists i :: 0 <= i < |names| && Holds(parts, names[i], key)
    ensures r.Some? ==> exists i :: 0 <= i < |names| && Holds(parts, names[i], key) && r.value == parts[names[i]][key]
                                    && forall j :: 0 <= j < i ==> !Holds(parts, names[j], key)
  {
    if names == [] then None
    else if Holds(parts, names[0], key) then Some(parts[names[0]][key])
    else MatchIn(names[1..], parts, key)
  }

  /** `caches.match(key)`: searches every partition, oldest first. In a valid
      storage it finds the key exactly when some partition holds it, and
      answers with that partition's entry. */
  function Match(s: Store, key: string): (r: Option<Response>)
    ensures Valid(s) ==> (r.Some? <==> exists n :: n in s.parts && key in s.parts[n])
    ensures r.Some? ==> exists n :: n in s.parts && key in s.parts[n] && r.value == s.parts[n][key]
  {
    MatchIn(s.names, s.parts, key)
  }

  /** After a put, the key is found; when no other partition holds the key,
      the response found is the one just written. */
  lemma MatchAfterPut(s: Store, name: string, key: string, response: Response)
    requires Valid(s)
    ensures Match(Put(s, name, key, response), key).Some?
    ensures (forall n :: n in s.parts && n != name ==> key !in s.parts[n]) ==>
              Match(Put(s, name, key, response), key) == Some(response)
  {
  }

  /** The two partitions of the current version. */
  predicate IsCurrent(name: string) {
    name == StaticCacheName || name == DynamicCacheName
  }

  /** The current names among `ns`, in their order. */
  function KeepCurrent(ns: seq<string>): (r: seq<string>)
    ensures forall x :: x in r <==> x in ns && IsCurrent(x)
    ensures Distinct(ns) ==> Distinct(r)
  {
    if ns == [] then []
    else if IsCurrent(ns[0]) then
      var rest := KeepCurrent(ns[1..]);
      if Distinct(ns) then
        assert ns[0] !in ns[1..] by {
          forall k | 0 <= k < |ns[1..]| ensures ns[1..][k] != ns[0] { assert ns[1..][k] == ns[k + 1]; }
        }
        DistinctCons(ns[0], rest);
        [ns[0]] + rest
      else [ns[0]] + rest
    else KeepCurrent(ns[1..])
  }

  /** The names to evict, in their order. */
  function Stale(ns: seq<string>): (r: seq<string>)
    ensures forall x :: x in r <==> x in ns && !IsCurrent(x)
  {
    if ns == [] then []
    else Stale(ns[..|ns| - 1]) + (if IsCurrent(ns[|ns| - 1]) then [] else [ns[|ns| - 1]])
  }

  /** Deleting each of `ds` in turn. */
  function DeleteAll(s: Store, ds: seq<string>): Store
  {
    if ds == [] then s else Delete(DeleteAll(s, ds[..|ds| - 1]), ds[|ds| - 1])
  }

  lemma StalePrefix(ns: seq<string>, i: nat)
    requires i < |ns|
    ensures Stale(ns[..i + 1]) == Stale(ns[..i]) + (if IsCurrent(ns[i]) then [] else [ns[i]])
  {
    assert ns[..i + 1][..i] == ns[..i];
  }

  lemma DeleteAllSnoc(s: Store, ds: seq<string>, d: string)
    ensures DeleteAll(s, ds + [d]) == Delete(DeleteAll(s, ds), d)
  {
    assert (ds + [d])[..|ds|] == ds;
  }

  /** One more listed name handled: deleted if stale, kept if current. */
  lemma EvictStep(before: Store, ns: seq<string>, i: nat)
    requires i < |ns|
    ensures DeleteAll(before, Stale(ns[..i + 1])) ==
      if IsCurrent(ns[i]) then DeleteAll(before, Stale(ns[..i])) else Delete(DeleteAll(before, Stale(ns[..i])), ns[i])
  {
    StalePrefix(ns, i);
    if IsCurrent(ns[i]) {
      assert Stale(ns[..i + 1]) == Stale(ns[..i]);
    } else {
      DeleteAllSnoc(before, Stale(ns[..i]), ns[i]);
    }
  }

  /** The eviction step: every stale partition is deleted. No partition is
      created or altered, the current ones survive, and in a valid storage
      only current ones remain. */
  function Evict(s: Store): (t: Store)
    ensures forall n :: n in t.parts ==> n in s.parts && t.parts[n] == s.parts[n]
    ensures forall n :: n in s.parts && IsCurrent(n) ==> n in t.parts
    ensures Valid(s) ==> forall n :: n in t.parts ==> IsCurrent(n)
  {
    DeleteAllParts(s, Stale(s.names));
    DeleteAll(s, Stale(s.names))
  }

  /** `ns` without the names in `d`, in their order. */
  function Drop(ns: seq<string>, d: set<string>): seq<string>
  {
    if ns == [] then [] else (if ns[0] in d then [] else [ns[0]]) + Drop(ns[1..], d)
  }

  lemma {:induction false} WithoutDrop(ns: seq<string>, d: set<string>, n: string)
    ensures Without(Drop(ns, d), n) == Drop(ns, d + {n})
  {
    if ns != [] {
      var x, tail := ns[0], ns[1..];
      WithoutDrop(tail, d, n);
      if x in d {
        assert Drop(ns, d) == Drop(tail, d);
        assert Drop(ns, d + {n}) == Drop(tail, d + {n});
      } else {
        assert Drop(ns, d) == [x] + Drop(tail, d);
        assert ([x] + Drop(tail, d))[1..] == Drop(tail, d);
        if x == n {
          assert Drop(ns, d + {n}) == Drop(tail, d + {n});
        } else {
          assert Drop(ns, d + {n}) == [x] + Drop(tail, d + {n});
        }
      }
    }
  }

  lemma {:induction false} DropNothing(ns: seq<string>, d: set<string>)
    requires forall x :: x in ns ==> x !in d
    ensures Drop(ns, d) == ns
  {
    if ns != [] {
      DropNothing(ns[1..], d);
    }
  }

  lemma {:induction false} DeleteAllNames(s: Store, ds: seq<string>)
    ensures DeleteAll(s, ds).names == Drop(s.names, set x | x in ds)
  {
    if ds == [] {
      assert (set x | x in ds) == {};
      DropNothing(s.names, {});
    } else {
      var init, last := ds[..|ds| - 1], ds[|ds| - 1];
      var d := set x | x in init;
      DeleteAllNames(s, init);
      WithoutDrop(s.names, d, last);
      assert (set x | x in ds) == d + {last} by {
        assert ds == init + [last];
      }
    }
  }

  lemma {:induction false} DeleteAllParts(s: Store, ds: seq<string>)
    ensures forall n :: n in DeleteAll(s, ds).parts <==> n in s.parts && n !in ds
    ensures forall n :: n in DeleteAll(s, ds).parts ==> DeleteAll(s, ds).parts[n] == s.parts[n]
  {
    if ds != [] {
      var init, last := ds[..|ds| - 1], ds[|ds| - 1];
      DeleteAllParts(s, init);
      assert ds == init + [last];
    }
  }

  lemma {:induction false} DropStale(ns: seq<string>, d: set<string>)
    requires forall x :: x in ns ==> (x in d <==> !IsCurrent(x))
    ensures Drop(ns, d) == KeepCurrent(ns)
  {
    if ns != [] {
      DropStale(ns[1..], d);
    }
  }

  /** The current partitions of `s`, untouched. */
  function CurrentParts(s: Store): map<string, Partition>
  {
    map n | n in s.parts && IsCurrent(n) :: s.parts[n]
  }

  /** Eviction leaves exactly the pre-existing current partitions, untouched
      and in their order, and never deletes a current one. */
  lemma EvictKeepsCurrent(s: Store)
    requires Valid(s)
    ensures Evict(s) == Store(KeepCurrent(s.names), CurrentParts(s))
    ensures Valid(Evict(s))
    ensures forall n :: n in Evict(s).parts <==> n in s.parts && IsCurrent(n)
  {
    var stale := Stale(s.names);
    DeleteAllNames(s, stale);
    DeleteAllParts(s, stale);
    DropStale(s.names, set x | x in stale);
    assert Evict(s).parts == CurrentParts(s) by {
      assert forall n :: n in Evict(s).parts <==> n in CurrentParts(s);
    }
  }

  /** Running the eviction twice deletes nothing more. */
  lemma EvictIdempotent(s: Store)
    requires Valid(s)
    ensures Evict(Evict(s)) == Evict(s)
  {
    EvictKeepsCurrent(s);
    EvictKeepsCurrent(Evict(s));
    KeepCurrentIdempotent(s.names);
  }

  lemma {:induction false} KeepCurrentIdempotent(ns: seq<string>)
    ensures KeepCurrent(KeepCurrent(ns)) == KeepCurrent(ns)
  {
    if ns != [] {
      KeepCurrentIdempotent(ns[1..]);
      if IsCurrent(ns[0]) {
        assert ([ns[0]] + KeepCurrent(ns[1..]))[1..] == KeepCurrent(ns[1..]);
      }
    }
  }

  lemma KeepCurrentOfExample(stale: string)
    requires !IsCurrent(stale)
    ensures KeepCurrent([StaticCacheName, DynamicCacheName, stale]) == [StaticCacheName, DynamicCacheName]
  {
    var names := [StaticCacheName, DynamicCacheName, stale];
    assert names[1..] == [DynamicCacheName, stale];
    assert names[1..][1..] == [stale];
    assert [stale][1..] == [];
    assert KeepCurrent([stale]) == [];
    assert KeepCurrent(names[1..]) == [DynamicCacheName] + KeepCurrent([stale]);
    assert KeepCurrent(names) == [StaticCacheName] + KeepCurrent(names[1..]);
  }

  /** The current partitions and one of an older version: after eviction
      exactly the two current ones remain, with their contents. */
  lemma EvictionExample(s: Store, stale: string)
    requires Valid(s)
    requires s.names == [StaticCacheName, DynamicCacheName, stale] && !IsCurrent(stale)
    ensures Evict(s).names == [StaticCacheName, DynamicCacheName]
    ensures Evict(s).parts.Keys == {StaticCacheName, DynamicCacheName}
    ensures forall n :: n in Evict(s).parts ==> Evict(s).parts[n] == s.parts[n]
  {
    KeepCurrentOfExample(stale);
    EvictKeepsCurrent(s);
  }
}
