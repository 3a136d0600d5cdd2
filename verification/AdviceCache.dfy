/** The advice cache: an LRU table of recommendations with dismissal tombstones
    (core/advice/cache.go). */
module AdviceCache {
  import opened Wrappers
  import opened Lru

  const DEFAULT_CAPACITY: nat := 512

  /** The features hash is taken as the marshalled features themselves. */
  datatype CacheKey = CacheKey(sessionID: string, kindID: string, features: string, promptVersion: string)

  datatype Recommendation = Recommendation(
    decision: bool, confidence: int, kindID: string, promptVersion: string,
    model: string, rung: string, unbenchmarked: bool, cacheHit: bool)

  const ZERO := Recommendation(false, 0, "", "", "", "", false, false)

  datatype CacheEntry = CacheEntry(rec: Recommendation, dismissed: bool)

  type Store = Table<CacheKey, CacheEntry>

  function Got(t: Store, k: CacheKey, cap: nat): Store {
    match Find(t, k)
    case Some(e) => Upsert(t, k, e, cap)
    case None => t
  }

  function Stored(t: Store, k: CacheKey, rec: Recommendation, cap: nat): Store {
    Upsert(t, k, CacheEntry(rec, false), cap)
  }

  function Dismissed(t: Store, k: CacheKey, cap: nat): Store {
    var rec := match Find(t, k) case Some(e) => e.rec case None => ZERO;
    Upsert(t, k, CacheEntry(rec, true), cap)
  }

  class AdviceCache {
    const table: LinkedTable<CacheKey, CacheEntry>

    constructor (capacity: int)
      ensures table.Valid() && table.Contents() == [] && fresh(table) && table.order == []
      ensures table.capacity == if capacity <= 0 then DEFAULT_CAPACITY else capacity
    {
      table := new LinkedTable(capacity, DEFAULT_CAPACITY);
    }

    method Get(key: CacheKey) returns (hit: Option<CacheEntry>)
      requires table.Valid()
      modifies table, table.order
      ensures table.Valid() && (forall c :: c in table.order ==> c in old(table.order) || fresh(c))
      ensures table.Contents() == Got(old(table.Contents()), key, table.capacity)
      ensures hit == Find(old(table.Contents()), key)
      ensures hit.None? ==> table.order == old(table.order)
    {
      table.EntryFacts(key);
      if key !in table.elems {
        return None;
      }
      var el := table.elems[key];
      hit := Some(el.val);
      table.MoveToFront(el);
    }

    method Put(key: CacheKey, rec: Recommendation)
      requires table.Valid()
      modifies table, table.order
      ensures table.Valid() && (forall c :: c in table.order ==> c in old(table.order) || fresh(c))
      ensures table.Contents() == Stored(old(table.Contents()), key, rec, table.capacity)
    {
      table.EntryFacts(key);
      if key in table.elems {
        var el := table.elems[key];
        table.Refresh(el, CacheEntry(rec, false));
      } else {
        table.Insert(key, CacheEntry(rec, false));
      }
    }

    method Dismiss(key: CacheKey)
      requires table.Valid()
      modifies table, table.order
      ensures table.Valid() && (forall c :: c in table.order ==> c in old(table.order) || fresh(c))
      ensures table.Contents() == Dismissed(old(table.Contents()), key, table.capacity)
    {
      table.EntryFacts(key);
      if key in table.elems {
        var el := table.elems[key];
        table.Refresh(el, el.val.(dismissed := true));
      } else {
        table.Insert(key, CacheEntry(ZERO, true));
      }
    }
  }
}
