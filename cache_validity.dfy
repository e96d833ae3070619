/**
 * The cache managers of the older package tree (`MyBatisCacheManagerDefault` and
 * `DefaultMyBatisCacheManager`, which share this logic line for line): a map from file path
 * to "still valid", three statistics counters, a version number, and the filter that turns
 * file-system events into invalidations.
 */
module CacheValidity {
  import opened Wrappers
  import opened JavaText
  import Statistics

  /** `isCacheValid`'s reading of the map: a path never marked is valid. */
  function ValidIn(validity: map<String, bool>, path: String): (r: bool)
    ensures path !in validity ==> r
    ensures path in validity ==> r == validity[path]
  {
    if path in validity then validity[path] else true
  }

  /** The paths whose file `clearFileCache` recognises: Java sources and XML files. */
  predicate IsSourcePath(path: String)
  {
    EndsWith(path, ".java") || EndsWith(path, ".xml")
  }

  /** The exception a re-parse throws out of `refreshInvalidatedCaches`, with the path being re-parsed. */
  datatype RefreshError = ReparseFailed(path: String)

  /** The paths marked invalid. */
  function InvalidPaths(validity: map<String, bool>): (s: set<String>)
    ensures forall p :: p in s <==> p in validity && !validity[p]
  {
    set p | p in validity && !validity[p]
  }

  /**
   * The map after `refreshInvalidatedCaches` has visited the paths in `done`: a visited path
   * whose file exists is valid again; every other entry is as it was.
   */
  function RefreshedOver(validity: map<String, bool>, existing: set<String>, done: set<String>): (m: map<String, bool>)
    ensures m.Keys == validity.Keys
  {
    map p | p in validity :: if p in done && p in existing then true else validity[p]
  }

  /** The visited invalid paths whose file is missing and that `clearFileCache` clears again. */
  function ClearedAgain(validity: map<String, bool>, existing: set<String>, done: set<String>): set<String>
  {
    set p | p in done && p in validity && !validity[p] && p !in existing && IsSourcePath(p)
  }

  /** `DefaultCacheStatistics`: hits, misses and invalidations. */
  class ValidityStatistics {
    var hitCount: nat
    var missCount: nat
    var invalidationCount: nat

    constructor()
      ensures hitCount == 0 && missCount == 0 && invalidationCount == 0
    {
      hitCount, missCount, invalidationCount := 0, 0, 0;
    }

    /** `getHitRate`: hits over hits plus misses, and 0 before any request. */
    function HitRate(): (r: Statistics.Ratio)
      reads this
      ensures hitCount + missCount == 0 ==> r == Statistics.Ratio(0, 1)
      ensures hitCount + missCount > 0 ==> r.num * (hitCount + missCount) == hitCount * r.den && 0 <= r.num <= r.den
    {
      Statistics.HitRate(hitCount, hitCount + missCount)
    }

    method RecordHit()
      modifies this
      ensures hitCount == old(hitCount) + 1 && missCount == old(missCount)
      ensures invalidationCount == old(invalidationCount)
    {
      hitCount := hitCount + 1;
    }

    method RecordMiss()
      modifies this
      ensures missCount == old(missCount) + 1 && hitCount == old(hitCount)
      ensures invalidationCount == old(invalidationCount)
    {
      missCount := missCount + 1;
    }

    method RecordInvalidation()
      modifies this
      ensures invalidationCount == old(invalidationCount) + 1
      ensures hitCount == old(hitCount) && missCount == old(missCount)
    {
      invalidationCount := invalidationCount + 1;
    }

    method Reset()
      modifies this
      ensures hitCount == 0 && missCount == 0 && invalidationCount == 0
      ensures HitRate() == Statistics.Ratio(0, 1)
    {
      hitCount, missCount, invalidationCount := 0, 0, 0;
    }
  }

  /** What a file-system event reports about its file. */
  datatype VFile = VFile(path: String, extension: Option<String>, excluded: bool, inSourceContent: bool)

  datatype EventKind = Create | Delete | ContentChange | Move | Copy | PropertyChange

  datatype FileEvent = FileEvent(kind: EventKind, file: Option<VFile>)

  /**
   * The listener invalidates an event's file only when there is one, it is not excluded, it
   * lies in source content, its extension is exactly "java" or "xml", and the event is a
   * deletion or a content change.
   */
  predicate Invalidates(e: FileEvent)
  {
    e.file.Some? && !e.file.value.excluded && e.file.value.inSourceContent &&
    e.file.value.extension.Some? && (e.file.value.extension.value == "java" || e.file.value.extension.value == "xml") &&
    (e.kind == Delete || e.kind == ContentChange)
  }

  /** The paths a batch of events invalidates, one per qualifying event, in order. */
  function InvalidatedPaths(events: seq<FileEvent>): (ps: seq<String>)
    ensures |ps| <= |events|
    ensures forall e :: e in events && Invalidates(e) ==> e.file.value.path in ps
    ensures forall p :: p in ps ==> exists e :: e in events && Invalidates(e) && e.file.value.path == p
  {
    if events == [] then []
    else
      var init := events[..|events| - 1];
      var e := events[|events| - 1];
      assert events == init + [e];
      InvalidatedPaths(init) + (if Invalidates(e) then [e.file.value.path] else [])
  }

  /** `validity` with every path of `ps` marked invalid. */
  function MarkedInvalid(validity: map<String, bool>, ps: seq<String>): (m: map<String, bool>)
    ensures m.Keys == validity.Keys + (set p | p in ps)
    ensures forall p :: ValidIn(m, p) <==> ValidIn(validity, p) && p !in ps
  {
    map p | p in validity.Keys + (set q | q in ps) :: if p in ps then false else validity[p]
  }

  class ValidityManager {
    var cacheValidityMap: map<String, bool>
    const statistics: ValidityStatistics
    var cacheVersion: int
    var scanIntervalMs: int

    /** Nothing marked, zero counters, version 1 and a five-minute scan interval. */
    constructor()
      ensures cacheValidityMap == map[] && cacheVersion == 1 && scanIntervalMs == 300000
      ensures fresh(statistics)
      ensures statistics.hitCount == 0 && statistics.missCount == 0 && statistics.invalidationCount == 0
    {
      cacheValidityMap := map[];
      statistics := new ValidityStatistics();
      cacheVersion := 1;
      scanIntervalMs := 300000;
    }

    /** `isCacheValid`: true unless the path has been marked invalid. */
    function IsCacheValid(filePath: String): bool
      reads this
    {
      ValidIn(cacheValidityMap, filePath)
    }

    /** `clearClassCache`: the path is marked invalid and one invalidation is counted. */
    method ClearClassCache(className: String)
      modifies this, statistics
      ensures cacheValidityMap == old(cacheValidityMap)[className := false]
      ensures !IsCacheValid(className)
      ensures statistics.invalidationCount == old(statistics.invalidationCount) + 1
      ensures statistics.hitCount == old(statistics.hitCount) && statistics.missCount == old(statistics.missCount)
      ensures cacheVersion == old(cacheVersion) && scanIntervalMs == old(scanIntervalMs)
    {
      cacheValidityMap := cacheValidityMap[className := false];
      statistics.RecordInvalidation();
    }

    /** `clearXmlFileCache`: the same for an XML file. */
    method ClearXmlFileCache(xmlFilePath: String)
      modifies this, statistics
      ensures cacheValidityMap == old(cacheValidityMap)[xmlFilePath := false]
      ensures !IsCacheValid(xmlFilePath)
      ensures statistics.invalidationCount == old(statistics.invalidationCount) + 1
      ensures statistics.hitCount == old(statistics.hitCount) && statistics.missCount == old(statistics.missCount)
      ensures cacheVersion == old(cacheVersion) && scanIntervalMs == old(scanIntervalMs)
    {
      cacheValidityMap := cacheValidityMap[xmlFilePath := false];
      statistics.RecordInvalidation();
    }

    /** `clearFileCache`: dispatches on the ".java" or ".xml" suffix and ignores other paths. */
    method ClearFileCache(filePath: String)
      modifies this, statistics
      ensures IsSourcePath(filePath) ==> cacheValidityMap == old(cacheValidityMap)[filePath := false]
      ensures IsSourcePath(filePath) ==> statistics.invalidationCount == old(statistics.invalidationCount) + 1
      ensures !IsSourcePath(filePath) ==> cacheValidityMap == old(cacheValidityMap)
      ensures !IsSourcePath(filePath) ==> statistics.invalidationCount == old(statistics.invalidationCount)
      ensures statistics.hitCount == old(statistics.hitCount) && statistics.missCount == old(statistics.missCount)
      ensures cacheVersion == old(cacheVersion) && scanIntervalMs == old(scanIntervalMs)
    {
      if EndsWith(filePath, ".java") {
        ClearClassCache(filePath);
      } else if EndsWith(filePath, ".xml") {
        ClearXmlFileCache(filePath);
      }
    }

    /** `clearAllCache`: every path is valid again and the three counters are zero. */
    method ClearAllCache()
      modifies this, statistics
      ensures cacheValidityMap == map[]
      ensures forall p :: IsCacheValid(p)
      ensures statistics.hitCount == 0 && statistics.missCount == 0 && statistics.invalidationCount == 0
      ensures cacheVersion == old(cacheVersion) && scanIntervalMs == old(scanIntervalMs)
    {
      cacheValidityMap := map[];
      statistics.Reset();
    }

    /** `invalidateFileCache`: the path is marked invalid and counted as one miss only. */
    method InvalidateFileCache(filePath: String)
      modifies this, statistics
      ensures cacheValidityMap == old(cacheValidityMap)[filePath := false]
      ensures statistics.missCount == old(statistics.missCount) + 1
      ensures statistics.hitCount == old(statistics.hitCount)
      ensures statistics.invalidationCount == old(statistics.invalidationCount)
      ensures cacheVersion == old(cacheVersion) && scanIntervalMs == old(scanIntervalMs)
    {
      cacheValidityMap := cacheValidityMap[filePath := false];
      statistics.RecordMiss();
    }

    /**
     * `refreshInvalidatedCaches`, with `existing` the paths whose file exists and `failing` the
     * paths whose re-parse throws (the older XML parser's IllegalArgumentException for an XML file
     * that is not a mapper, say). The invalid paths are visited in the map's order, which Java
     * leaves unspecified: an invalid path with a file is re-parsed and becomes valid; one without
     * a file goes through `clearFileCache`, which leaves it invalid and, for a Java or XML path,
     * counts one more invalidation. The first visited path with a file whose re-parse throws ends
     * the refresh with that exception, after the paths visited before it and before it is marked.
     * `visited` is the set of paths handled before the refresh ended. Valid paths are not touched.
     */
    method RefreshInvalidatedCaches(existing: set<String>, failing: set<String>)
      returns (r: Result<(), RefreshError>, ghost visited: set<String>)
      modifies this, statistics
      ensures r.Ok? <==> InvalidPaths(old(cacheValidityMap)) * existing * failing == {}
      ensures visited <= InvalidPaths(old(cacheValidityMap)) && visited * existing * failing == {}
      ensures r.Ok? ==> visited == InvalidPaths(old(cacheValidityMap))
      ensures r.Err? ==> r.error.path in InvalidPaths(old(cacheValidityMap)) * existing * failing
                         && r.error.path !in visited
      ensures cacheValidityMap == RefreshedOver(old(cacheValidityMap), existing, visited)
      ensures statistics.invalidationCount == old(statistics.invalidationCount) +
                |ClearedAgain(old(cacheValidityMap), existing, visited)|
      ensures statistics.hitCount == old(statistics.hitCount) && statistics.missCount == old(statistics.missCount)
      ensures cacheVersion == old(cacheVersion) && scanIntervalMs == old(scanIntervalMs)
    {
      ghost var start := cacheValidityMap;
      ghost var count0 := statistics.invalidationCount;
      var invalidFiles := InvalidPaths(cacheValidityMap);
      visited := {};
      r := Ok(());
      while invalidFiles != {} && r.Ok?
        invariant invalidFiles + visited == InvalidPaths(start) && invalidFiles !! visited
        invariant visited * existing * failing == {}
        invariant r.Err? ==> r.error.path in InvalidPaths(start) * existing * failing && r.error.path !in visited
        invariant cacheValidityMap == RefreshedOver(start, existing, visited)
        invariant statistics.invalidationCount == count0 + |ClearedAgain(start, existing, visited)|
        invariant statistics.hitCount == old(statistics.hitCount) && statistics.missCount == old(statistics.missCount)
        invariant cacheVersion == old(cacheVersion) && scanIntervalMs == old(scanIntervalMs)
        decreases invalidFiles, if r.Ok? then 1 else 0
      {
        var filePath :| filePath in invalidFiles;
        if filePath in existing && filePath in failing {
          r := Err(ReparseFailed(filePath));
        } else {
          VisitInvalid(start, existing, visited, filePath, count0);
          OneMoreVisited(visited, filePath, existing, failing);
          MoveOne(invalidFiles, visited, filePath);
          invalidFiles := invalidFiles - {filePath};
          visited := visited + {filePath};
        }
      }
      if r.Ok? {
        assert visited == InvalidPaths(start);
      }
    }

    /** One path of `refreshInvalidatedCaches`: revalidated if its file exists, cleared otherwise. */
    method VisitInvalid(ghost start: map<String, bool>, existing: set<String>, ghost done: set<String>,
                        filePath: String, ghost count0: nat)
      modifies this, statistics
      requires filePath in start && !start[filePath] && filePath !in done
      requires cacheValidityMap == RefreshedOver(start, existing, done)
      requires statistics.invalidationCount == count0 + |ClearedAgain(start, existing, done)|
      ensures cacheValidityMap == RefreshedOver(start, existing, done + {filePath})
      ensures statistics.invalidationCount == count0 + |ClearedAgain(start, existing, done + {filePath})|
      ensures statistics.hitCount == old(statistics.hitCount) && statistics.missCount == old(statistics.missCount)
      ensures cacheVersion == old(cacheVersion) && scanIntervalMs == old(scanIntervalMs)
    {
      RefreshStep(start, existing, done, filePath);
      if filePath !in existing {
        ClearFileCache(filePath);
      } else {
        cacheValidityMap := cacheValidityMap[filePath := true];
      }
    }

    /** `incrementCacheVersion`: one more, so a reader holding the old number is out of date. */
    method IncrementCacheVersion()
      modifies this
      ensures cacheVersion == old(cacheVersion) + 1
      ensures !IsCacheUpToDate(old(cacheVersion))
      ensures cacheValidityMap == old(cacheValidityMap) && scanIntervalMs == old(scanIntervalMs)
    {
      cacheVersion := cacheVersion + 1;
    }

    function GetCurrentCacheVersion(): int
      reads this
    {
      cacheVersion
    }

    /** `isCacheUpToDate`: the caller's version is the current one. */
    predicate IsCacheUpToDate(lastKnownVersion: int)
      reads this
    {
      cacheVersion == lastKnownVersion
    }

    /** `setScanInterval`: the new interval is stored (the rescheduling is not modelled). */
    method SetScanInterval(intervalMs: int)
      modifies this
      ensures scanIntervalMs == intervalMs
      ensures cacheValidityMap == old(cacheValidityMap) && cacheVersion == old(cacheVersion)
    {
      scanIntervalMs := intervalMs;
    }

    /**
     * The file listener of `DefaultMyBatisCacheManager`: each qualifying event invalidates its
     * file's path and counts one miss, in order; every other event is skipped.
     */
    method OnFileEvents(events: seq<FileEvent>)
      modifies this, statistics
      ensures cacheValidityMap == MarkedInvalid(old(cacheValidityMap), InvalidatedPaths(events))
      ensures statistics.missCount == old(statistics.missCount) + |InvalidatedPaths(events)|
      ensures statistics.hitCount == old(statistics.hitCount)
      ensures statistics.invalidationCount == old(statistics.invalidationCount)
      ensures cacheVersion == old(cacheVersion) && scanIntervalMs == old(scanIntervalMs)
    {
      ghost var start := cacheValidityMap;
      var i := 0;
      while i < |events|
        invariant 0 <= i <= |events|
        invariant cacheValidityMap == MarkedInvalid(start, InvalidatedPaths(events[..i]))
        invariant statistics.missCount == old(statistics.missCount) + |InvalidatedPaths(events[..i])|
        invariant statistics.hitCount == old(statistics.hitCount)
        invariant statistics.invalidationCount == old(statistics.invalidationCount)
        invariant cacheVersion == old(cacheVersion) && scanIntervalMs == old(scanIntervalMs)
      {
        var event := events[i];
        EventStep(events, i);
        MarkOneMore(start, InvalidatedPaths(events[..i]), if event.file.Some? then event.file.value.path else []);
        if event.file.Some? {
          var file := event.file.value;
          if !file.excluded && file.inSourceContent && file.extension.Some?
             && (file.extension.value == "java" || file.extension.value == "xml")
             && (event.kind == Delete || event.kind == ContentChange) {
            InvalidateFileCache(file.path);
          }
        }
        i := i + 1;
      }
      assert events[..i] == events;
    }
  }

  /** Moving one path from the paths still to visit to the visited ones keeps their union. */
  lemma MoveOne(todo: set<String>, done: set<String>, p: String)
    requires p in todo && todo !! done
    ensures (todo - {p}) + (done + {p}) == todo + done && (todo - {p}) !! (done + {p})
  {
  }

  /** A path that exists and re-parses, or does not exist, adds no failing path to the visited ones. */
  lemma OneMoreVisited(visited: set<String>, p: String, existing: set<String>, failing: set<String>)
    requires visited * existing * failing == {} && !(p in existing && p in failing)
    ensures (visited + {p}) * existing * failing == {}
  {
    assert (visited + {p}) * existing * failing == visited * existing * failing + {p} * existing * failing;
  }

  /** One more event: the paths grow by that event's path, if it qualifies. */
  lemma EventStep(events: seq<FileEvent>, i: nat)
    requires i < |events|
    ensures InvalidatedPaths(events[..i + 1]) ==
              InvalidatedPaths(events[..i]) + (if Invalidates(events[i]) then [events[i].file.value.path] else [])
  {
    assert events[..i + 1][..i] == events[..i];
  }

  /** Marking one more path invalid. */
  lemma MarkOneMore(start: map<String, bool>, ps: seq<String>, p: String)
    ensures MarkedInvalid(start, ps + [p]) == MarkedInvalid(start, ps)[p := false]
    ensures MarkedInvalid(start, ps + []) == MarkedInvalid(start, ps)
  {
    assert ps + [] == ps;
  }

  /** One more invalid path visited by `refreshInvalidatedCaches`. */
  lemma RefreshStep(start: map<String, bool>, existing: set<String>, done: set<String>, p: String)
    requires p in start && !start[p] && p !in done
    ensures p !in existing ==>
              RefreshedOver(start, existing, done + {p}) == RefreshedOver(start, existing, done)
    ensures p !in existing && IsSourcePath(p) ==>
              RefreshedOver(start, existing, done)[p := false] == RefreshedOver(start, existing, done) &&
              |ClearedAgain(start, existing, done + {p})| == |ClearedAgain(start, existing, done)| + 1
    ensures !(p !in existing && IsSourcePath(p)) ==>
              ClearedAgain(start, existing, done + {p}) == ClearedAgain(start, existing, done)
    ensures p in existing ==>
              RefreshedOver(start, existing, done + {p}) == RefreshedOver(start, existing, done)[p := true]
  {
    if p !in existing && IsSourcePath(p) {
      assert ClearedAgain(start, existing, done + {p}) == ClearedAgain(start, existing, done) + {p};
    }
  }

  /**
   * After a refresh, whether it ran to the end or stopped at a failing re-parse, no path that
   * was valid has become invalid, the visited paths with a file are valid, and every other path
   * is as it was; a refresh that ran to the end has made every path with a file valid.
   */
  lemma RefreshOnlyRevalidates(validity: map<String, bool>, existing: set<String>, visited: set<String>, p: String)
    requires visited <= InvalidPaths(validity)
    ensures var after := RefreshedOver(validity, existing, visited);
            (ValidIn(validity, p) ==> ValidIn(after, p)) &&
            (p in visited && p in existing ==> ValidIn(after, p)) &&
            (p !in visited || p !in existing ==> ValidIn(after, p) == ValidIn(validity, p)) &&
            (visited == InvalidPaths(validity) && p in existing ==> ValidIn(after, p))
  {
  }
}
