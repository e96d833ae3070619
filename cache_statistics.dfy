/**
 * `CacheStatistics`: the counters the cache keeps about itself. Every counter is a field
 * that the record and update operations change in place.
 */
module Statistics {

  /** A non-negative fraction num/den, standing in for the `double` the source returns. */
  datatype Ratio = Ratio(num: int, den: int)

  /** The hit rate: 0 with no requests, hits/requests otherwise. */
  function HitRate(hits: int, requests: int): (r: Ratio)
    ensures r.den > 0
    ensures requests <= 0 ==> r == Ratio(0, 1)
    ensures requests > 0 ==> r.num * requests == hits * r.den
    ensures 0 <= hits <= requests ==> 0 <= r.num <= r.den
  {
    if requests > 0 then Ratio(hits, requests) else Ratio(0, 1)
  }

  /** With every request a hit the rate is exactly one; with none it is zero. */
  lemma HitRateExtremes(hits: int, misses: int)
    requires hits >= 0 && misses >= 0 && hits + misses > 0
    ensures HitRate(hits, hits + misses).num == HitRate(hits, hits + misses).den <==> misses == 0
    ensures HitRate(hits, hits + misses).num == 0 <==> hits == 0
  {
  }

  class CacheStatistics {
    var hits: int
    var misses: int
    var requests: int
    var evictions: int
    var invalidations: int
    var currentSize: int
    var maxSize: int
    var memoryUsageBytes: int

    /**
     * Every request is a hit or a miss, the event counters never go negative, and the
     * high-water mark is at least the current size.
     */
    ghost predicate Valid()
      reads this
    {
      requests == hits + misses && hits >= 0 && misses >= 0 &&
      evictions >= 0 && invalidations >= 0 &&
      maxSize >= 0 && currentSize <= maxSize
    }

    constructor()
      ensures Valid()
      ensures hits == 0 && misses == 0 && requests == 0 && evictions == 0 && invalidations == 0
      ensures currentSize == 0 && maxSize == 0 && memoryUsageBytes == 0
    {
      hits, misses, requests, evictions, invalidations := 0, 0, 0, 0, 0;
      currentSize, maxSize, memoryUsageBytes := 0, 0, 0;
    }

    method RecordHit()
      requires Valid()
      modifies this
      ensures Valid()
      ensures hits == old(hits) + 1 && requests == old(requests) + 1
      ensures misses == old(misses) && evictions == old(evictions) && invalidations == old(invalidations)
      ensures currentSize == old(currentSize) && maxSize == old(maxSize) && memoryUsageBytes == old(memoryUsageBytes)
    {
      hits := hits + 1;
      requests := requests + 1;
    }

    method RecordMiss()
      requires Valid()
      modifies this
      ensures Valid()
      ensures misses == old(misses) + 1 && requests == old(requests) + 1
      ensures hits == old(hits) && evictions == old(evictions) && invalidations == old(invalidations)
      ensures currentSize == old(currentSize) && maxSize == old(maxSize) && memoryUsageBytes == old(memoryUsageBytes)
    {
      misses := misses + 1;
      requests := requests + 1;
    }

    method RecordEviction()
      requires Valid()
      modifies this
      ensures Valid()
      ensures evictions == old(evictions) + 1
      ensures hits == old(hits) && misses == old(misses) && requests == old(requests) && invalidations == old(invalidations)
      ensures currentSize == old(currentSize) && maxSize == old(maxSize) && memoryUsageBytes == old(memoryUsageBytes)
    {
      evictions := evictions + 1;
    }

    method RecordInvalidation()
      requires Valid()
      modifies this
      ensures Valid()
      ensures invalidations == old(invalidations) + 1
      ensures hits == old(hits) && misses == old(misses) && requests == old(requests) && evictions == old(evictions)
      ensures currentSize == old(currentSize) && maxSize == old(maxSize) && memoryUsageBytes == old(memoryUsageBytes)
    {
      invalidations := invalidations + 1;
    }

    /** The current size is overwritten; the high-water mark only ever rises. */
    method UpdateCurrentSize(size: int)
      requires Valid()
      modifies this
      ensures Valid()
      ensures currentSize == size
      ensures maxSize == if size > old(maxSize) then size else old(maxSize)
      ensures maxSize >= old(maxSize) && maxSize >= size
      ensures hits == old(hits) && misses == old(misses) && requests == old(requests)
      ensures evictions == old(evictions) && invalidations == old(invalidations) && memoryUsageBytes == old(memoryUsageBytes)
    {
      currentSize := size;
      if size > maxSize {
        maxSize := size;
      }
    }

    method UpdateMemoryUsage(bytes: int)
      requires Valid()
      modifies this
      ensures Valid()
      ensures memoryUsageBytes == bytes
      ensures hits == old(hits) && misses == old(misses) && requests == old(requests)
      ensures evictions == old(evictions) && invalidations == old(invalidations)
      ensures currentSize == old(currentSize) && maxSize == old(maxSize)
    {
      memoryUsageBytes := bytes;
    }

    method GetHitRate() returns (r: Ratio)
      requires Valid()
      ensures r == HitRate(hits, requests)
      ensures 0 <= r.num <= r.den
    {
      r := HitRate(hits, requests);
    }

    /** Zeroes every counter but keeps the historical maximum size. */
    method Reset()
      requires Valid()
      modifies this
      ensures Valid()
      ensures hits == 0 && misses == 0 && requests == 0 && evictions == 0 && invalidations == 0
      ensures currentSize == 0 && memoryUsageBytes == 0
      ensures maxSize == old(maxSize)
    {
      hits, misses, requests, evictions, invalidations := 0, 0, 0, 0, 0;
      currentSize := 0;
      memoryUsageBytes := 0;
    }
  }
}
