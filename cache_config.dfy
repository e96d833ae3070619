/**
 * `MyBatisCacheConfig`: five tuning values with defaults, setters that ignore
 * non-positive numbers and return the same object for chaining, and two presets.
 */
module CacheConfig {

  const DefaultMaxCacheSize: int := 1000
  const DefaultCacheExpiryTimeSeconds: int := 3600
  const DefaultScanIntervalSeconds: int := 60
  const DefaultEnableMemoryOptimization: bool := true
  const DefaultCleanupBatchSize: int := 100

  /** What an int setter stores: the argument when it is positive, the current value otherwise. */
  function Guarded(current: int, v: int): (r: int)
    ensures v > 0 ==> r == v
    ensures v <= 0 ==> r == current
    ensures current > 0 ==> r > 0
  {
    if v > 0 then v else current
  }

  /** Setting twice keeps the last positive argument. */
  lemma GuardedTwice(current: int, v: int, w: int)
    ensures Guarded(Guarded(current, v), w) == (if w > 0 then w else Guarded(current, v))
    ensures w <= 0 ==> Guarded(Guarded(current, v), w) == Guarded(current, v)
    ensures v > 0 && w > 0 ==> Guarded(Guarded(current, v), w) == w
  {
  }

  class MyBatisCacheConfig {
    var maxCacheSize: int
    var cacheExpiryTimeSeconds: int
    var scanIntervalSeconds: int
    var enableMemoryOptimization: bool
    var cleanupBatchSize: int

    /** The four numeric settings are always positive. */
    ghost predicate Valid()
      reads this
    {
      maxCacheSize > 0 && cacheExpiryTimeSeconds > 0 && scanIntervalSeconds > 0 && cleanupBatchSize > 0
    }

    /** `createDefault` and the field initialisers. */
    constructor()
      ensures Valid()
      ensures maxCacheSize == DefaultMaxCacheSize && cacheExpiryTimeSeconds == DefaultCacheExpiryTimeSeconds
      ensures scanIntervalSeconds == DefaultScanIntervalSeconds
      ensures enableMemoryOptimization == DefaultEnableMemoryOptimization
      ensures cleanupBatchSize == DefaultCleanupBatchSize
    {
      maxCacheSize := DefaultMaxCacheSize;
      cacheExpiryTimeSeconds := DefaultCacheExpiryTimeSeconds;
      scanIntervalSeconds := DefaultScanIntervalSeconds;
      enableMemoryOptimization := DefaultEnableMemoryOptimization;
      cleanupBatchSize := DefaultCleanupBatchSize;
    }

    method SetMaxCacheSize(v: int) returns (self: MyBatisCacheConfig)
      requires Valid()
      modifies this
      ensures self == this && Valid()
      ensures maxCacheSize == Guarded(old(maxCacheSize), v)
      ensures cacheExpiryTimeSeconds == old(cacheExpiryTimeSeconds) && scanIntervalSeconds == old(scanIntervalSeconds)
      ensures enableMemoryOptimization == old(enableMemoryOptimization) && cleanupBatchSize == old(cleanupBatchSize)
    {
      if v > 0 {
        maxCacheSize := v;
      }
      self := this;
    }

    method SetCacheExpiryTimeSeconds(v: int) returns (self: MyBatisCacheConfig)
      requires Valid()
      modifies this
      ensures self == this && Valid()
      ensures cacheExpiryTimeSeconds == Guarded(old(cacheExpiryTimeSeconds), v)
      ensures maxCacheSize == old(maxCacheSize) && scanIntervalSeconds == old(scanIntervalSeconds)
      ensures enableMemoryOptimization == old(enableMemoryOptimization) && cleanupBatchSize == old(cleanupBatchSize)
    {
      if v > 0 {
        cacheExpiryTimeSeconds := v;
      }
      self := this;
    }

    method SetScanIntervalSeconds(v: int) returns (self: MyBatisCacheConfig)
      requires Valid()
      modifies this
      ensures self == this && Valid()
      ensures scanIntervalSeconds == Guarded(old(scanIntervalSeconds), v)
      ensures maxCacheSize == old(maxCacheSize) && cacheExpiryTimeSeconds == old(cacheExpiryTimeSeconds)
      ensures enableMemoryOptimization == old(enableMemoryOptimization) && cleanupBatchSize == old(cleanupBatchSize)
    {
      if v > 0 {
        scanIntervalSeconds := v;
      }
      self := this;
    }

    /** The only unguarded setter. */
    method SetEnableMemoryOptimization(b: bool) returns (self: MyBatisCacheConfig)
      requires Valid()
      modifies this
      ensures self == this && Valid()
      ensures enableMemoryOptimization == b
      ensures maxCacheSize == old(maxCacheSize) && cacheExpiryTimeSeconds == old(cacheExpiryTimeSeconds)
      ensures scanIntervalSeconds == old(scanIntervalSeconds) && cleanupBatchSize == old(cleanupBatchSize)
    {
      enableMemoryOptimization := b;
      self := this;
    }

    method SetCleanupBatchSize(v: int) returns (self: MyBatisCacheConfig)
      requires Valid()
      modifies this
      ensures self == this && Valid()
      ensures cleanupBatchSize == Guarded(old(cleanupBatchSize), v)
      ensures maxCacheSize == old(maxCacheSize) && cacheExpiryTimeSeconds == old(cacheExpiryTimeSeconds)
      ensures scanIntervalSeconds == old(scanIntervalSeconds) && enableMemoryOptimization == old(enableMemoryOptimization)
    {
      if v > 0 {
        cleanupBatchSize := v;
      }
      self := this;
    }
  }

  /** `createForLargeProjects`: a fresh config put through the setter chain. */
  method CreateForLargeProjects() returns (c: MyBatisCacheConfig)
    ensures fresh(c) && c.Valid()
    ensures c.maxCacheSize == 5000 && c.cacheExpiryTimeSeconds == 1800 && c.scanIntervalSeconds == 60
    ensures c.enableMemoryOptimization && c.cleanupBatchSize == 500
  {
    c := new MyBatisCacheConfig();
    c := c.SetMaxCacheSize(5000);
    c := c.SetCacheExpiryTimeSeconds(1800);
    c := c.SetScanIntervalSeconds(60);
    c := c.SetEnableMemoryOptimization(true);
    c := c.SetCleanupBatchSize(500);
  }

  /** `createForSmallProjects` */
  method CreateForSmallProjects() returns (c: MyBatisCacheConfig)
    ensures fresh(c) && c.Valid()
    ensures c.maxCacheSize == 500 && c.cacheExpiryTimeSeconds == 3600 && c.scanIntervalSeconds == 120
    ensures !c.enableMemoryOptimization && c.cleanupBatchSize == 50
  {
    c := new MyBatisCacheConfig();
    c := c.SetMaxCacheSize(500);
    c := c.SetCacheExpiryTimeSeconds(3600);
    c := c.SetScanIntervalSeconds(120);
    c := c.SetEnableMemoryOptimization(false);
    c := c.SetCleanupBatchSize(50);
  }
}
