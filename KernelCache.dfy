/** The per-kernel entity cache of the CGAL geometry kernel: a map from an
    entity's integer id to its converted shape, filled by the store step of a
    conversion, consulted by its lookup step, and dropped wholesale by
    purge_cache. Shapes are opaque values of type S. */
module KernelCache {
  import opened Wrappers

  /** What a lookup of id in the map m finds. */
  function Find<S>(m: map<int, S>, id: int): (r: Option<S>)
    ensures r.Some? <==> id in m
    ensures r.Some? ==> r.value == m[id]
  {
    if id in m then Some(m[id]) else None
  }

  /** The cache value: one map per kind of converted value; only the shape map
      is modelled. The kernel holds it by value. */
  datatype CgalCache<S> = CgalCache(shape: map<int, S>)

  /** A default-constructed cache: no entries. */
  function DefaultCache<S>(): (c: CgalCache<S>)
    ensures forall id :: Find(c.shape, id) == None
  {
    CgalCache(map[])
  }

  /** The kernel as far as its cache goes. */
  class CgalKernel<S> {
    var cache: CgalCache<S>

    constructor ()
      ensures cache == DefaultCache()
    {
      cache := DefaultCache();
    }

    /** The lookup step of a conversion: a hit yields the stored shape (and the
        conversion returns early), a miss yields nothing. */
    method InCache(id: int) returns (r: Option<S>)
      ensures r == Find(cache.shape, id)
    {
      if id in cache.shape {
        r := Some(cache.shape[id]);
      } else {
        r := None;
      }
    }

    /** The store step of a conversion: the entry for id is set to s, replacing
        any earlier one, and every other entry stays as it was. */
    method Store(id: int, s: S)
      modifies this
      ensures cache.shape == old(cache.shape)[id := s]
      ensures Find(cache.shape, id) == Some(s)
      ensures forall other :: other != id ==> Find(cache.shape, other) == Find(old(cache.shape), other)
    {
      cache := cache.(shape := cache.shape[id := s]);
    }

    /** Assigns a default-constructed cache to the cache member. */
    method PurgeCache()
      modifies this
      ensures cache == DefaultCache()
      ensures forall id :: Find(cache.shape, id) == None
    {
      cache := DefaultCache();
    }
  }

  // The map-level facts behind the cache's lookup and store, on any shape map.

  /** A store followed by a lookup of the same id finds the stored shape. */
  lemma StoreThenFind<S>(m: map<int, S>, id: int, s: S)
    ensures Find(m[id := s], id) == Some(s)
  {
  }

  /** A second store to the same id wins over the first. */
  lemma StoreOverwrites<S>(m: map<int, S>, id: int, s: S, s': S)
    ensures m[id := s][id := s'] == m[id := s']
    ensures Find(m[id := s][id := s'], id) == Some(s')
  {
  }

  /** A store under one id leaves lookups of every other id unchanged. */
  lemma StoreKeepsOthers<S>(m: map<int, S>, id: int, s: S, other: int)
    requires other != id
    ensures Find(m[id := s], other) == Find(m, other)
  {
  }

  /** Store, lookup, purge, lookup, purge again: the first lookup hits, the
      second misses, and a second purge leaves the cache as empty as the first. */
  method StoreLookupPurge<S>(kernel: CgalKernel<S>, id: int, s: S) returns (before: Option<S>, after: Option<S>)
    modifies kernel
    ensures before == Some(s)
    ensures after == None
    ensures kernel.cache == DefaultCache()
  {
    kernel.Store(id, s);
    before := kernel.InCache(id);
    kernel.PurgeCache();
    after := kernel.InCache(id);
    kernel.PurgeCache();
  }
}
