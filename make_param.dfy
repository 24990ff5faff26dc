// The cached parameter factory (src/make_param.hpp): a parameter is looked
// up in the cache under its type and `hash + name`; a hit is reused (marked
// changed, tags replaced), a miss creates, names and caches a new one.
module MakeParam {
  import opened Parameters
  import opened ParameterCache

  /** The cache key of `make_param<T>(hash, name, ...)`. */
  function Key(t: ParameterType, hash: string, name: string): string
  {
    MakeHash(t, hash + name)
  }

  /** `make_param<T>(hash, name, offset, tags)`. On a hit the cached object
      is returned with its flag raised and its tags replaced, its name,
      offset and value untouched; on a miss a new default parameter with the
      name, offset and tags is cached under the key. Either way the result is
      what the cache now holds under the key. */
  method MakeCached(cache: ParameterCache, t: ParameterType, st: Storage, hash: string, name: string,
                    offset: nat, tags: set<string>) returns (p: Parameter)
    requires StorageFits(t, st)
    modifies cache, if Key(t, hash, name) in cache.params then {cache.params[Key(t, hash, name)]} else {}
    ensures Key(t, hash, name) in cache.params && cache.params[Key(t, hash, name)] == p
    ensures forall k :: k in old(cache.params) ==> k in cache.params && cache.params[k] == old(cache.params[k])
    ensures forall k :: k in cache.params ==> cache.params[k] in old(cache.params.Values) || fresh(cache.params[k])
    ensures p.changed && p.tags == tags
    ensures Key(t, hash, name) in old(cache.params) ==>
              p == old(cache.params[Key(t, hash, name)]) && cache.params == old(cache.params) &&
              p.name == old(p.name) && p.offset == old(p.offset) && p.value == old(p.value) &&
              p.ptype == old(p.ptype) && p.lo == old(p.lo) && p.hi == old(p.hi)
    ensures Key(t, hash, name) !in old(cache.params) ==>
              fresh(p) && cache.params == old(cache.params)[Key(t, hash, name) := p] &&
              p.ptype == t && p.name == name && p.offset == offset && p.Valid() &&
              p.value == InitialValue(t, st)
  {
    var hit := cache.Has(t, hash + name);
    if hit {
      var found := cache.Get(t, hash + name);
      p := found.value;
      p.MarkChanged();
      p.SetTags(tags);
      return;
    }
    p := Parameters.MakeParam(t, st, name, offset);
    p.SetTags(tags);
    cache.Add(t, hash + name, p);
  }

  /** Two calls with the same type, hash and name return the same object,
      and the second call leaves the name and offset of the first. */
  method MakeCachedTwice(cache: ParameterCache, t: ParameterType, st: Storage, hash: string, name: string,
                         offset1: nat, offset2: nat, tags: set<string>) returns (p: Parameter, q: Parameter)
    requires StorageFits(t, st)
    requires Key(t, hash, name) !in cache.params
    modifies cache
    ensures p == q && p.name == name && p.offset == offset1 && p.ptype == t
  {
    p := MakeCached(cache, t, st, hash, name, offset1, tags);
    q := MakeCached(cache, t, st, hash, name, offset2, tags);
  }

  /** The engine node as seen by the node overload: its parameter hash name
      and the non-kernel parameters registered with it. */
  class NodeParams {
    var paramHashName: string
    var nonKernelParams: seq<Parameter>

    constructor (hashName: string)
      ensures paramHashName == hashName && nonKernelParams == []
    {
      paramHashName := hashName;
      nonKernelParams := [];
    }
  }

  /** `make_param<T>(node, name, offset, tags)`: the cached factory with the
      node's hash name, then the parameter is registered with the node. */
  method MakeForNode(node: NodeParams, cache: ParameterCache, t: ParameterType, st: Storage,
                     name: string, offset: nat, tags: set<string>) returns (p: Parameter)
    requires StorageFits(t, st)
    modifies node, cache
    modifies if Key(t, node.paramHashName, name) in cache.params then {cache.params[Key(t, node.paramHashName, name)]} else {}
    ensures Key(t, node.paramHashName, name) in cache.params && cache.params[Key(t, node.paramHashName, name)] == p
    ensures node.nonKernelParams == old(node.nonKernelParams) + [p]
    ensures node.paramHashName == old(node.paramHashName)
    ensures p.changed && p.tags == tags
  {
    p := MakeCached(cache, t, st, node.paramHashName, name, offset, tags);
    node.nonKernelParams := node.nonKernelParams + [p];
  }
}
