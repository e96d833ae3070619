# km-quick-mybatis, modelled in Dafny

km-quick-mybatis is an IntelliJ IDEA plugin for MyBatis projects. It links each Java DAO
method call (through `SqlSession` and its look-alikes) to the `<select>`, `<insert>`,
`<update>` or `<delete>` tag of a mapper XML file that carries the same SQL id, and it
keeps a cache of these links. The cache holds Java element rows, XML element rows and
one digest per source file. A periodic scan compares those digests with the files on
disk and re-parses what changed.

The source has two package trees. `cn.wx1998.kmerit.jetbrains` is the newer one and
`cn.wx1998.kmerit.intellij` the older one. Both are modelled where they differ.

This project models the plugin's core as Dafny modules. It proves what each operation
promises.

| module | what it models |
|---|---|
| `BuildScript` | `build.gradle.kts`: the platform choice, the plugin lists, the description cut out of README.md, the change notes and the release channel |
| `TimeFormat` | `TimeStrFormatter.format`, with a reader for its output that proves the format loses nothing |
| `Statistics`, `CacheConfig` | the cache's counters and tuning values: classes whose methods update fields in place |
| `XmlStructure` | the mapper-file vocabulary |
| `JavaExpr` | `JavaService` in both trees. This covers the constant folding of the Java expression that names an SQL statement, the deque that flattens `+` chains, `replaceFirstParam`, the SqlSession checks and the SQL-id templates |
| `XmlTree`, `XmlTagLocator`, `TagLocator` | the tag tree that stands in for PSI, and the two ways a cached record finds its tag again. The older tree uses XPath-like paths and the newer one character offsets |
| `MapperParse`, `MapperScan`, `Multimap`, `JetbrainsXmlParser`, `IntellijXmlParser` | the two mapper-XML parsers: the validity rule, the id-keyed maps and the loops that fill them |
| `JavaParser` | the older Java parser's file check and the six maps of its parse result |
| `InfoOrder`, `JetbrainsInfo`, `IntellijInfo` | the four element-info records: constructors, setters, `equals` and `compareTo` |
| `ProjectFiles` | the hex form of a file's SHA-256 digest, the batch digest map and the recursive file collection |
| `CacheStore` | the newer cache store, `MyBatisCacheDefault`, over three tables kept as sequences and a map |
| `CacheManager` | the newer cache manager: the change scan, the per-file clear, the version counter, the lookups, the rows synced from a parsed mapper, and the staleness notification |
| `CacheValidity` | the older two cache managers: a validity map, statistics, a version number and the file-event filter |
| `BaseDao` | the snake_case-to-camelCase column mapping of the database layer |
| `PluginSettings`, `Notifications` | the class-filter settings, the settings page, and the "don't show again" flags |
| `JavaText`, `Wrappers` | the JDK and Kotlin string operations the plugin calls, with their laws, plus `Option` and `Result` for `null` and exceptions |

The IDE itself is not modelled; each IDE service becomes a parameter:
- the PSI tree is a datatype, and PSI elements are positions in it;
- the virtual file system is a map from path to file entry;
- SHA-256 is a function parameter;
- `TextRange.contains` is a predicate parameter.

Objects whose fields the source updates in place are Dafny classes. Their methods
state the whole new state.

Where the code and the plugin's documented behaviour differ, the model follows the code:
- `"".split(',')` in the build script gives one empty plugin name, not an empty list.
- `isCacheValid` of a path never seen is true. Some of the repository's tests expect false.
- `putClassXmlMapping` only logs, so it is not modelled as storing anything.

## Model

| member | source | states |
|---|---|---|
| Statistics.HitRate | src/main/java/cn/wx1998/kmerit/intellij/plugins/quickmybatis/cache/CacheStatistics.java:148-151 | the rate is 0/1 with no requests and hits/requests otherwise, a fraction between 0 and 1 when hits do not exceed requests |
| Statistics.HitRateExtremes | src/main/java/cn/wx1998/kmerit/intellij/plugins/quickmybatis/cache/CacheStatistics.java:148-151 | the rate is exactly one iff there were no misses, and exactly zero iff there were no hits |
| Statistics.CacheStatistics.constructor | src/main/java/cn/wx1998/kmerit/intellij/plugins/quickmybatis/cache/CacheStatistics.java:11-18 | every counter starts at zero and the invariant (requests = hits + misses, counters non-negative, maxSize at least currentSize) holds |
| Statistics.CacheStatistics.RecordHit | src/main/java/cn/wx1998/kmerit/intellij/plugins/quickmybatis/cache/CacheStatistics.java:23-26 | hits and requests each grow by one; every other counter is unchanged; the invariant is kept |
| Statistics.CacheStatistics.RecordMiss | src/main/java/cn/wx1998/kmerit/intellij/plugins/quickmybatis/cache/CacheStatistics.java:31-34 | misses and requests each grow by one; every other counter is unchanged; the invariant is kept |
| Statistics.CacheStatistics.RecordEviction | src/main/java/cn/wx1998/kmerit/intellij/plugins/quickmybatis/cache/CacheStatistics.java:39-41 | only the eviction counter changes, by one |
| Statistics.CacheStatistics.RecordInvalidation | src/main/java/cn/wx1998/kmerit/intellij/plugins/quickmybatis/cache/CacheStatistics.java:46-48 | only the invalidation counter changes, by one |
| Statistics.CacheStatistics.UpdateCurrentSize | src/main/java/cn/wx1998/kmerit/intellij/plugins/quickmybatis/cache/CacheStatistics.java:55-60 | currentSize becomes the argument and maxSize becomes the larger of its old value and the argument, so it never decreases |
| Statistics.CacheStatistics.UpdateMemoryUsage | src/main/java/cn/wx1998/kmerit/intellij/plugins/quickmybatis/cache/CacheStatistics.java:67-69 | the memory figure is overwritten unconditionally; nothing else changes |
| Statistics.CacheStatistics.GetHitRate | src/main/java/cn/wx1998/kmerit/intellij/plugins/quickmybatis/cache/CacheStatistics.java:148-151 | returns the hit rate of the current hits and requests, a fraction between 0 and 1 |
| Statistics.CacheStatistics.Reset | src/main/java/cn/wx1998/kmerit/intellij/plugins/quickmybatis/cache/CacheStatistics.java:156-165 | every counter returns to zero except maxSize, which keeps its old value |
| CacheConfig.Guarded | src/main/java/cn/wx1998/kmerit/intellij/plugins/quickmybatis/cache/MyBatisCacheConfig.java:64-69 | an int setter stores a positive argument and otherwise keeps the current value, so a positive field stays positive |
| CacheConfig.GuardedTwice | src/main/java/cn/wx1998/kmerit/intellij/plugins/quickmybatis/cache/MyBatisCacheConfig.java:64-69 | of two chained settings the last positive argument wins; a non-positive second argument changes nothing |
| CacheConfig.MyBatisCacheConfig.constructor | src/main/java/cn/wx1998/kmerit/intellij/plugins/quickmybatis/cache/MyBatisCacheConfig.java:9-28 | a fresh (or `createDefault`) config holds 1000, 3600, 60, true and 100, and all four int fields are positive |
| CacheConfig.MyBatisCacheConfig.SetMaxCacheSize | src/main/java/cn/wx1998/kmerit/intellij/plugins/quickmybatis/cache/MyBatisCacheConfig.java:64-69 | stores the argument only if it is positive, returns the same object and leaves the other four fields alone |
| CacheConfig.MyBatisCacheConfig.SetCacheExpiryTimeSeconds | src/main/java/cn/wx1998/kmerit/intellij/plugins/quickmybatis/cache/MyBatisCacheConfig.java:86-91 | stores the argument only if it is positive, returns the same object and leaves the other four fields alone |
| CacheConfig.MyBatisCacheConfig.SetScanIntervalSeconds | src/main/java/cn/wx1998/kmerit/intellij/plugins/quickmybatis/cache/MyBatisCacheConfig.java:108-113 | stores the argument only if it is positive, returns the same object and leaves the other four fields alone |
| CacheConfig.MyBatisCacheConfig.SetEnableMemoryOptimization | src/main/java/cn/wx1998/kmerit/intellij/plugins/quickmybatis/cache/MyBatisCacheConfig.java:130-133 | always overwrites the flag, returns the same object and leaves the int fields alone |
| CacheConfig.MyBatisCacheConfig.SetCleanupBatchSize | src/main/java/cn/wx1998/kmerit/intellij/plugins/quickmybatis/cache/MyBatisCacheConfig.java:150-155 | stores the argument only if it is positive, returns the same object and leaves the other four fields alone |
| CacheConfig.CreateForLargeProjects | src/main/java/cn/wx1998/kmerit/intellij/plugins/quickmybatis/cache/MyBatisCacheConfig.java:36-38 | the large preset is (5000, 1800, 60, true, 500) and keeps every int field positive |
| CacheConfig.CreateForSmallProjects | src/main/java/cn/wx1998/kmerit/intellij/plugins/quickmybatis/cache/MyBatisCacheConfig.java:45-47 | the small preset is (500, 3600, 120, false, 50) and keeps every int field positive |
| XmlStructure.StatementTagsListed | src/main/java/cn/wx1998/kmerit/jetbrains/plugins/quickmybatis/parser/MyBatisXmlStructure.java:25 | `STATEMENT_TAGS` has four entries and holds exactly the names `isStatementTag` accepts (lines 70-72); every statement tag is supported (line 81) |
| XmlStructure.NestedTagsUnsupported | src/main/java/cn/wx1998/kmerit/jetbrains/plugins/quickmybatis/parser/MyBatisXmlStructure.java:80-82 | result, id, collection, association and parameter are not supported tags; the test is case-sensitive ("SELECT" is no statement tag) and mapper is no statement tag |
| XmlStructure.GetStatementAttributes | src/main/java/cn/wx1998/kmerit/jetbrains/plugins/quickmybatis/parser/MyBatisXmlStructure.java:90-100 | the common attributes are always present; insert and select add their own sets; any name that is not a statement tag gets exactly the common set |
| XmlStructure.UpdateDeleteAttributesAreCommon | src/main/java/cn/wx1998/kmerit/jetbrains/plugins/quickmybatis/parser/MyBatisXmlStructure.java:41-47 | the attribute sets of update and delete both equal the common set, because flushCache is already common |
| XmlStructure.InsertSelectAttributes | src/main/java/cn/wx1998/kmerit/jetbrains/plugins/quickmybatis/parser/MyBatisXmlStructure.java:93-98 | insert gets keyProperty and select does not; select gets resultOrdered and insert does not; both get resultSets and update does not |
| BuildScript.ResolvePlatform | build.gradle.kts:46-60 | a non-empty local path selects the local platform whatever the other properties say; otherwise the remote platform is created iff type and version are both non-empty, and the GradleException with the script's message is raised when either is empty; a missing property is an error of its own |
| BuildScript.PluginListFacts | build.gradle.kts:64-67 | plugin lists are split verbatim on ',': joining the tokens with ',' gives the property back, there is one token more than commas, and an empty property yields one empty token |
| BuildScript.FirstIndex | build.gradle.kts:94 | `indexOf` gives the first line equal to the marker, and -1 exactly when no line is |
| BuildScript.ExtractDescription | build.gradle.kts:86-96 | the result is the GradleException naming both markers exactly when a marker is not a whole line of README.md |
| BuildScript.DescriptionBetweenMarkers | build.gradle.kts:94 | when the first start line precedes the first end line, the section is the lines strictly between them joined with "\n" |
| BuildScript.DescriptionMarkersReversed | build.gradle.kts:94 | an end marker before the start marker makes `subList` fail with IllegalArgumentException |
| BuildScript.NonEmptySections | build.gradle.kts:105 | `withEmptySections(false)` keeps exactly the sections that have items |
| BuildScript.NonEmptySectionsInOrder | build.gradle.kts:105 | the filter keeps the order of the sections: a single section is kept exactly when it has items, and the parts of a split list are filtered apart and joined in the same order |
| BuildScript.NonEmptySectionsAppend | build.gradle.kts:105 | filtering a concatenation is the concatenation of the filtered parts |
| BuildScript.ChangeNotes | build.gradle.kts:100-109 | the entry for the exact version is rendered when it exists and the unreleased entry otherwise, without header, and its sections are the filtered ones, in their order |
| BuildScript.Channels | build.gradle.kts:128-129 | the channel list always has exactly one non-empty element, and a version without '-' is in the "default" channel |
| BuildScript.ChannelsShape | build.gradle.kts:128-129 | the channel is the text after the first '-' up to the next '.', or "default" when that text is empty; it never holds a '.' |
| BuildScript.ChannelOf | build.gradle.kts:128-129 | a version `core-pre.rest` whose core has no '-' is published in channel `pre` |
| BuildScript.ChannelOfTail | build.gradle.kts:128-129 | a version `core-pre` without a later '.' is published in channel `pre` |
| BuildScript.ChannelsExample | build.gradle.kts:125-129 | the comment's example "2.1.7-alpha.3" gives ["alpha"], and "2.1.7" gives ["default"] |
| BuildScript.ChannelsBuildMetadata | build.gradle.kts:128-129 | as written, "1.0.0+build-7" is published in channel "7", taken from the build metadata |
| BuildScript.ChannelsSemVer | build.gradle.kts:125-129 | the channel read as Semantic Versioning 2.0.0 intends it: one non-empty element without '.', and no '+' unless it is "default" |
| BuildScript.ChannelsSemVerAgrees | build.gradle.kts:128-129 | for versions without build metadata the corrected reading equals the script's |
| BuildScript.ChannelsSemVerCore | build.gradle.kts:125-129 | with build metadata the corrected reading looks at the version core only |
| BuildScript.SemVerBuildMetadata | build.gradle.kts:125-129 | the corrected reading puts "1.0.0+build-7" in the "default" channel |
| TimeFormat.UnitSizesNest | src/main/java/cn/wx1998/kmerit/jetbrains/plugins/quickmybatis/util/TimeStrFormatter.java:18-21 | a second is 1000 ms, a minute 60 seconds, an hour 60 minutes and a day 24 hours |
| TimeFormat.DecomposeSums | src/main/java/cn/wx1998/kmerit/jetbrains/plugins/quickmybatis/util/TimeStrFormatter.java:24-28 | the five quotients and remainders, weighted by their unit sizes, add up to the input |
| TimeFormat.HoursWithinDay | src/main/java/cn/wx1998/kmerit/jetbrains/plugins/quickmybatis/util/TimeStrFormatter.java:25 | the hours taken out of the day remainder leave the hour remainder |
| TimeFormat.MinutesWithinHour | src/main/java/cn/wx1998/kmerit/jetbrains/plugins/quickmybatis/util/TimeStrFormatter.java:26 | the minutes taken out of the hour remainder leave the minute remainder |
| TimeFormat.SecondsWithinMinute | src/main/java/cn/wx1998/kmerit/jetbrains/plugins/quickmybatis/util/TimeStrFormatter.java:27 | the seconds taken out of the minute remainder leave the millisecond remainder |
| TimeFormat.Decompose | src/main/java/cn/wx1998/kmerit/jetbrains/plugins/quickmybatis/util/TimeStrFormatter.java:24-28 | for ms ≥ 0 the components satisfy hours < 24, minutes < 60, seconds < 60, millis < 1000, and days·86400000 + hours·3600000 + minutes·60000 + seconds·1000 + millis equals the input |
| TimeFormat.Format | src/main/java/cn/wx1998/kmerit/jetbrains/plugins/quickmybatis/util/TimeStrFormatter.java:11-48 | a negative input gives "0毫秒"; otherwise the text always ends with `ms % 1000` followed by 毫秒, even when that remainder is 0 |
| TimeFormat.RenderRoundTrip | src/main/java/cn/wx1998/kmerit/jetbrains/plugins/quickmybatis/util/TimeStrFormatter.java:32-45 | the pieces appended in the order 天, 小时, 分, 秒, 毫秒 read back to the duration the components stand for |
| TimeFormat.FormatRoundTrip | src/main/java/cn/wx1998/kmerit/jetbrains/plugins/quickmybatis/util/TimeStrFormatter.java:11-48 | reading the formatted text of any ms ≥ 0 back gives ms, so no information is lost |
| TimeFormat.FormatInjective | src/main/java/cn/wx1998/kmerit/jetbrains/plugins/quickmybatis/util/TimeStrFormatter.java:11-48 | two non-negative durations format to the same text only when they are equal |
| TimeFormat.FormatBelowOneSecond | src/main/java/cn/wx1998/kmerit/jetbrains/plugins/quickmybatis/util/TimeStrFormatter.java:32-45 | below one second only the milliseconds are printed |
| TimeFormat.FormatShowsPositiveComponents | src/main/java/cn/wx1998/kmerit/jetbrains/plugins/quickmybatis/util/TimeStrFormatter.java:32-40 | 天, 小时 and 分 appear in the text exactly when the day, hour and minute components are positive |
| TimeFormat.FormatNegativeExample | src/main/java/cn/wx1998/kmerit/jetbrains/plugins/quickmybatis/util/TimeStrFormatter.java:13-15 | a negative input (-3) prints as "0毫秒" |
| TimeFormat.FormatExample500 | src/main/java/cn/wx1998/kmerit/jetbrains/plugins/quickmybatis/util/TimeStrFormatter.java:9 | the documented example 500 gives "500毫秒" |
| TimeFormat.FormatExample70010 | src/main/java/cn/wx1998/kmerit/jetbrains/plugins/quickmybatis/util/TimeStrFormatter.java:9 | the documented example 70010 gives "1分10秒10毫秒" |
| InfoOrder.CompareRange | src/main/java/cn/wx1998/kmerit/jetbrains/plugins/quickmybatis/cache/info/XmlElementInfo.java:121-131 | the offset order (path, then start offset, then end offset) returns 0 exactly for equal keys |
| InfoOrder.CompareRangeAntisymmetric | src/main/java/cn/wx1998/kmerit/jetbrains/plugins/quickmybatis/cache/info/XmlElementInfo.java:121-131 | swapping the two keys flips the sign of the offset order |
| InfoOrder.CompareRangeTransitive | src/main/java/cn/wx1998/kmerit/jetbrains/plugins/quickmybatis/cache/info/XmlElementInfo.java:121-131 | the offset order is transitive |
| InfoOrder.CompareLine | src/main/java/cn/wx1998/kmerit/intellij/plugins/quickmybatis/cache/info/XmlElementInfo.java:108-121 | a zero result means the same path and line number, and equal keys compare as 0 |
| InfoOrder.CompareLineAntisymmetric | src/main/java/cn/wx1998/kmerit/intellij/plugins/quickmybatis/cache/info/XmlElementInfo.java:108-121 | swapping the two keys flips the sign of the line order |
| InfoOrder.CompareLineTransitiveWithXPaths | src/main/java/cn/wx1998/kmerit/intellij/plugins/quickmybatis/cache/info/XmlElementInfo.java:113-118 | among keys that all carry an xpath the line order is transitive |
| InfoOrder.CompareLineCycle | src/main/java/cn/wx1998/kmerit/intellij/plugins/quickmybatis/cache/info/XmlElementInfo.java:113-120 | three keys in one file where the key without an xpath makes the order cyclic: a < b, b < c and yet a > c |
| InfoOrder.CompareLineNullsFirst | src/main/java/cn/wx1998/kmerit/intellij/plugins/quickmybatis/cache/info/XmlElementInfo.java:108-121 | the corrected order, with a null xpath sorted first, returns 0 exactly for equal keys |
| InfoOrder.CompareXPath | src/main/java/cn/wx1998/kmerit/intellij/plugins/quickmybatis/cache/info/XmlElementInfo.java:113-118 | the nulls-first xpath comparison returns 0 exactly for equal optional xpaths |
| InfoOrder.CompareXPathAntisymmetric | src/main/java/cn/wx1998/kmerit/intellij/plugins/quickmybatis/cache/info/XmlElementInfo.java:113-118 | swapping the xpaths flips the sign of the nulls-first comparison |
| InfoOrder.CompareXPathStep | src/main/java/cn/wx1998/kmerit/intellij/plugins/quickmybatis/cache/info/XmlElementInfo.java:113-118 | the nulls-first xpath comparison chains: non-strict then strict gives strict, in either order |
| InfoOrder.CompareLineNullsFirstAntisymmetric | src/main/java/cn/wx1998/kmerit/intellij/plugins/quickmybatis/cache/info/XmlElementInfo.java:108-121 | swapping the keys flips the sign of the corrected order |
| InfoOrder.CompareLineNullsFirstTransitive | src/main/java/cn/wx1998/kmerit/intellij/plugins/quickmybatis/cache/info/XmlElementInfo.java:108-121 | the corrected order is transitive for all keys, with or without xpaths |
| InfoOrder.CompareLineNullsFirstAgrees | src/main/java/cn/wx1998/kmerit/intellij/plugins/quickmybatis/cache/info/XmlElementInfo.java:113-118 | when both xpaths are present the corrected order gives the same result as the order as written |
| IntellijInfo.XmlElementInfo.constructor | src/main/java/cn/wx1998/kmerit/intellij/plugins/quickmybatis/cache/info/XmlElementInfo.java:34-40 | the record holds the path, line number, tag name, SQL id and xpath it was built from |
| IntellijInfo.XmlElementInfo.SetXpath | src/main/java/cn/wx1998/kmerit/intellij/plugins/quickmybatis/cache/info/XmlElementInfo.java:46-48 | the xpath is replaced and every other field is unchanged |
| IntellijInfo.XmlElementInfo.SetFilePath | src/main/java/cn/wx1998/kmerit/intellij/plugins/quickmybatis/cache/info/XmlElementInfo.java:54-56 | the path is replaced and every other field is unchanged |
| IntellijInfo.XmlElementInfo.SetLineNumber | src/main/java/cn/wx1998/kmerit/intellij/plugins/quickmybatis/cache/info/XmlElementInfo.java:62-64 | the line number is replaced and every other field is unchanged |
| IntellijInfo.XmlElementInfo.SetTagName | src/main/java/cn/wx1998/kmerit/intellij/plugins/quickmybatis/cache/info/XmlElementInfo.java:70-72 | the tag name is replaced and every other field is unchanged |
| IntellijInfo.XmlElementInfo.SetSqlId | src/main/java/cn/wx1998/kmerit/intellij/plugins/quickmybatis/cache/info/XmlElementInfo.java:78-80 | the SQL id is replaced and every other field is unchanged |
| IntellijInfo.XmlElementInfo.Equals | src/main/java/cn/wx1998/kmerit/intellij/plugins/quickmybatis/cache/info/XmlElementInfo.java:84-100 | equal records have equal hash codes and compare as 0, the contract `equals`, `hashCode` and `compareTo` must keep |
| IntellijInfo.JavaElementInfo.constructor | src/main/java/cn/wx1998/kmerit/intellij/plugins/quickmybatis/cache/info/JavaElementInfo.java:33-39 | the record holds the path, line number, element type, SQL id and xpath it was built from |
| IntellijInfo.JavaElementInfo.SetXpath | src/main/java/cn/wx1998/kmerit/intellij/plugins/quickmybatis/cache/info/JavaElementInfo.java:45-47 | the xpath is replaced and every other field is unchanged |
| IntellijInfo.JavaElementInfo.SetFilePath | src/main/java/cn/wx1998/kmerit/intellij/plugins/quickmybatis/cache/info/JavaElementInfo.java:53-55 | the path is replaced and every other field is unchanged |
| IntellijInfo.JavaElementInfo.SetLineNumber | src/main/java/cn/wx1998/kmerit/intellij/plugins/quickmybatis/cache/info/JavaElementInfo.java:61-63 | the line number is replaced and every other field is unchanged |
| IntellijInfo.JavaElementInfo.SetElementType | src/main/java/cn/wx1998/kmerit/intellij/plugins/quickmybatis/cache/info/JavaElementInfo.java:69-71 | the element type is replaced and every other field is unchanged |
| IntellijInfo.JavaElementInfo.SetSqlId | src/main/java/cn/wx1998/kmerit/intellij/plugins/quickmybatis/cache/info/JavaElementInfo.java:77-79 | the SQL id is replaced and every other field is unchanged |
| IntellijInfo.JavaElementInfo.Equals | src/main/java/cn/wx1998/kmerit/intellij/plugins/quickmybatis/cache/info/JavaElementInfo.java:82-96 | equal records have equal hash codes and compare as 0 |
| IntellijInfo.XmlCompareToWithXPaths | src/main/java/cn/wx1998/kmerit/intellij/plugins/quickmybatis/cache/info/XmlElementInfo.java:108-121 | for tag records that all carry an xpath, `compareTo` is antisymmetric and transitive |
| IntellijInfo.JavaCompareToWithXPaths | src/main/java/cn/wx1998/kmerit/intellij/plugins/quickmybatis/cache/info/JavaElementInfo.java:104-116 | for Java records that all carry an xpath, `compareTo` is antisymmetric and transitive |
| IntellijInfo.XmlCompareToSkipsMissingXPath | src/main/java/cn/wx1998/kmerit/intellij/plugins/quickmybatis/cache/info/XmlElementInfo.java:113-120 | in one file, when either xpath is missing, the line numbers alone decide the order |
| JetbrainsInfo.XmlElementInfo.constructor | src/main/java/cn/wx1998/kmerit/jetbrains/plugins/quickmybatis/cache/info/XmlElementInfo.java:38-45 | the record holds the path, offsets, tag name, SQL id and database id it was built from |
| JetbrainsInfo.XmlElementInfo.SetFilePath | src/main/java/cn/wx1998/kmerit/jetbrains/plugins/quickmybatis/cache/info/XmlElementInfo.java:51-53 | the path is replaced and every other field is unchanged |
| JetbrainsInfo.XmlElementInfo.SetStartOffset | src/main/java/cn/wx1998/kmerit/jetbrains/plugins/quickmybatis/cache/info/XmlElementInfo.java:59-61 | the start offset is replaced and every other field is unchanged |
| JetbrainsInfo.XmlElementInfo.SetEndOffset | src/main/java/cn/wx1998/kmerit/jetbrains/plugins/quickmybatis/cache/info/XmlElementInfo.java:67-69 | the end offset is replaced and every other field is unchanged |
| JetbrainsInfo.XmlElementInfo.SetTagName | src/main/java/cn/wx1998/kmerit/jetbrains/plugins/quickmybatis/cache/info/XmlElementInfo.java:75-77 | the tag name is replaced and every other field is unchanged |
| JetbrainsInfo.XmlElementInfo.SetSqlId | src/main/java/cn/wx1998/kmerit/jetbrains/plugins/quickmybatis/cache/info/XmlElementInfo.java:83-85 | the SQL id is replaced and every other field is unchanged |
| JetbrainsInfo.XmlElementInfo.SetDatabaseId | src/main/java/cn/wx1998/kmerit/jetbrains/plugins/quickmybatis/cache/info/XmlElementInfo.java:91-93 | the database id is replaced and every other field is unchanged |
| JetbrainsInfo.XmlElementInfo.Equals | src/main/java/cn/wx1998/kmerit/jetbrains/plugins/quickmybatis/cache/info/XmlElementInfo.java:97-113 | equal records have equal hash codes and compare as 0 |
| JetbrainsInfo.JavaElementInfo.constructor | src/main/java/cn/wx1998/kmerit/jetbrains/plugins/quickmybatis/cache/info/JavaElementInfo.java:33-39 | the record holds the path, offsets, element type and SQL id it was built from |
| JetbrainsInfo.JavaElementInfo.SetFilePath | src/main/java/cn/wx1998/kmerit/jetbrains/plugins/quickmybatis/cache/info/JavaElementInfo.java:45-47 | the path is replaced and every other field is unchanged |
| JetbrainsInfo.JavaElementInfo.SetStartOffset | src/main/java/cn/wx1998/kmerit/jetbrains/plugins/quickmybatis/cache/info/JavaElementInfo.java:53-55 | the start offset is replaced and every other field is unchanged |
| JetbrainsInfo.JavaElementInfo.SetEndOffset | src/main/java/cn/wx1998/kmerit/jetbrains/plugins/quickmybatis/cache/info/JavaElementInfo.java:61-63 | the end offset is replaced and every other field is unchanged |
| JetbrainsInfo.JavaElementInfo.SetElementType | src/main/java/cn/wx1998/kmerit/jetbrains/plugins/quickmybatis/cache/info/JavaElementInfo.java:69-71 | the element type is replaced and every other field is unchanged |
| JetbrainsInfo.JavaElementInfo.SetSqlId | src/main/java/cn/wx1998/kmerit/jetbrains/plugins/quickmybatis/cache/info/JavaElementInfo.java:77-79 | the SQL id is replaced and every other field is unchanged |
| JetbrainsInfo.JavaElementInfo.Equals | src/main/java/cn/wx1998/kmerit/jetbrains/plugins/quickmybatis/cache/info/JavaElementInfo.java:82-97 | equal records have equal hash codes and compare as 0 |
| JetbrainsInfo.XmlEqualsIgnoresDatabaseId | src/main/java/cn/wx1998/kmerit/jetbrains/plugins/quickmybatis/cache/info/XmlElementInfo.java:97-113 | two tag records that agree on path, offsets, tag name and SQL id are equal whatever their database ids |
| JetbrainsInfo.XmlCompareZero | src/main/java/cn/wx1998/kmerit/jetbrains/plugins/quickmybatis/cache/info/XmlElementInfo.java:121-131 | `compareTo` is 0 exactly when path and offsets agree, so two records at one place with different SQL ids compare as 0 yet are not equal |
| JetbrainsInfo.XmlCompareToIsOrder | src/main/java/cn/wx1998/kmerit/jetbrains/plugins/quickmybatis/cache/info/XmlElementInfo.java:121-131 | `compareTo` on tag records is antisymmetric and transitive |
| JetbrainsInfo.JavaCompareToIsOrder | src/main/java/cn/wx1998/kmerit/jetbrains/plugins/quickmybatis/cache/info/JavaElementInfo.java:106-117 | `compareTo` on Java records is antisymmetric, transitive and 0 exactly at equal path and offsets |
| TagLocator.Innermost | src/main/java/cn/wx1998/kmerit/jetbrains/plugins/quickmybatis/util/TagLocator.java:234-255 | the result encloses both offsets, is shorter than `Integer.MAX_VALUE`, no enclosing tag is shorter and every earlier enclosing tag is strictly longer; None only when no tag encloses the range with a length below `Integer.MAX_VALUE` |
| TagLocator.InnermostUnique | src/main/java/cn/wx1998/kmerit/jetbrains/plugins/quickmybatis/util/TagLocator.java:244-253 | at most one tag satisfies the innermost condition, so ties go to the first in walk order |
| TagLocator.InnermostFoundWhenEnclosed | src/main/java/cn/wx1998/kmerit/jetbrains/plugins/quickmybatis/util/TagLocator.java:244-253 | whenever some tag shorter than `Integer.MAX_VALUE` encloses the range, the search finds one |
| TagLocator.FindInnermostXmlTagContainingRange | src/main/java/cn/wx1998/kmerit/jetbrains/plugins/quickmybatis/util/TagLocator.java:234-255 | no root tag gives null; otherwise the loop with its running minimum returns the innermost enclosing tag |
| TagLocator.XmlTagByLocation | src/main/java/cn/wx1998/kmerit/jetbrains/plugins/quickmybatis/util/TagLocator.java:90-111 | a tag is found only for a non-blank path with a valid offset range naming an XML file; an exact hit matches both offsets, any other hit is the innermost enclosing tag |
| TagLocator.FindXmlTagByRange | src/main/java/cn/wx1998/kmerit/jetbrains/plugins/quickmybatis/util/TagLocator.java:192-209 | no leaf element gives null, an enclosing tag with exactly the stored offsets is returned, otherwise the innermost search decides |
| TagLocator.FindXmlTagByInfo | src/main/java/cn/wx1998/kmerit/jetbrains/plugins/quickmybatis/util/TagLocator.java:90-111 | validation, file lookup and range search performed in order give the lookup's value |
| TagLocator.JavaTagByInfo | src/main/java/cn/wx1998/kmerit/jetbrains/plugins/quickmybatis/util/TagLocator.java:122-142 | an invalid record finds nothing, a found element lies in a Java file at the record's path, and for a valid record of a Java file the result is exactly the element at the start offset (null when there is none) |
| TagLocator.JavaLookupIgnoresEndAndType | src/main/java/cn/wx1998/kmerit/jetbrains/plugins/quickmybatis/util/TagLocator.java:215-223 | two valid records with the same path and start offset find the same element, whatever their end offsets and element types |
| TagLocator.CreateXmlElementInfo | src/main/java/cn/wx1998/kmerit/jetbrains/plugins/quickmybatis/util/TagLocator.java:39-56 | null exactly when there is no virtual file; otherwise a new record holding the file path, the tag's offsets, the element type, the SQL id and the database id |
| TagLocator.CreateJavaElementInfo | src/main/java/cn/wx1998/kmerit/jetbrains/plugins/quickmybatis/util/TagLocator.java:62-79 | null exactly when there is no virtual file; otherwise a new record holding the file path, the element's offsets, the element type and the SQL id |
| TagLocator.CreatedLocationFindsTag | src/main/java/cn/wx1998/kmerit/jetbrains/plugins/quickmybatis/util/TagLocator.java:192-203 | a location taken from a tag finds that very tag by exact match while the file is unchanged |
| XmlTagLocator.Escape | src/main/java/cn/wx1998/kmerit/intellij/plugins/quickmybatis/util/XmlTagLocator.java:150-152 | the escaped text is longer than the input by its number of apostrophes |
| XmlTagLocator.UnescapeEscape | src/main/java/cn/wx1998/kmerit/intellij/plugins/quickmybatis/util/XmlTagLocator.java:150-152 | collapsing doubled apostrophes restores the original text, so escaping loses nothing |
| XmlTagLocator.EscapeIsReplace | src/main/java/cn/wx1998/kmerit/intellij/plugins/quickmybatis/util/XmlTagLocator.java:150-152 | the escape equals replacing every apostrophe by two, as `String.replace` does |
| XmlTagLocator.EscapeNoApostrophe | src/main/java/cn/wx1998/kmerit/intellij/plugins/quickmybatis/util/XmlTagLocator.java:150-152 | text without apostrophes is left unchanged |
| XmlTagLocator.CountNamed | src/main/java/cn/wx1998/kmerit/intellij/plugins/quickmybatis/util/XmlTagLocator.java:126-134 | the number of same-named siblings never exceeds the number of siblings |
| XmlTagLocator.Position | src/main/java/cn/wx1998/kmerit/intellij/plugins/quickmybatis/util/XmlTagLocator.java:124-134 | the 1-based position of a tag among its same-named siblings lies between 1 and its own index plus one |
| XmlTagLocator.SiblingPosition | src/main/java/cn/wx1998/kmerit/intellij/plugins/quickmybatis/util/XmlTagLocator.java:124-134 | the sibling loop, stopping at the tag itself, returns its position among same-named siblings |
| XmlTagLocator.Segments | src/main/java/cn/wx1998/kmerit/intellij/plugins/quickmybatis/util/XmlTagLocator.java:111-141 | one segment per tag from the root down to the tag, in that order |
| XmlTagLocator.GenerateXPathForTag | src/main/java/cn/wx1998/kmerit/intellij/plugins/quickmybatis/util/XmlTagLocator.java:107-145 | walking up from the tag and putting each segment in front yields "/" followed by the segments from the root down, joined by "/" |
| XmlTagLocator.SegmentOf | src/main/java/cn/wx1998/kmerit/intellij/plugins/quickmybatis/util/XmlTagLocator.java:113-136 | one pass of the walk builds the tag's segment: `name[@id='…']` with an escaped id, `name[k]` below a parent, the bare name at the root |
| XmlTagLocator.SegmentsFrom | src/main/java/cn/wx1998/kmerit/intellij/plugins/quickmybatis/util/XmlTagLocator.java:139-140 | putting the segment at depth d in front of those below it gives the segments from depth d down |
| XmlTagLocator.XPathShape | src/main/java/cn/wx1998/kmerit/intellij/plugins/quickmybatis/util/XmlTagLocator.java:111-144 | every segment starts with its tag's name, a tag with an id gets `[@id='escaped id']`, and a root without an id is its bare name |
| XmlTagLocator.Candidates | src/main/java/cn/wx1998/kmerit/intellij/plugins/quickmybatis/util/XmlTagLocator.java:266-272 | the candidates are exactly the children whose name equals the segment's name ignoring case, in document order |
| XmlTagLocator.CollectCandidates | src/main/java/cn/wx1998/kmerit/intellij/plugins/quickmybatis/util/XmlTagLocator.java:266-272 | the collecting loop returns exactly the candidates |
| XmlTagLocator.ParseSegment | src/main/java/cn/wx1998/kmerit/intellij/plugins/quickmybatis/util/XmlTagLocator.java:256-263 | without a condition the whole segment is the name; with one, the segment is a non-empty name free of '[', then '[', the condition and ']' |
| XmlTagLocator.BracketSplit | src/main/java/cn/wx1998/kmerit/intellij/plugins/quickmybatis/util/XmlTagLocator.java:259-263 | a segment whose first '[' is at b and that ends in ']' is the text before b, '[', the inside and ']' |
| XmlTagLocator.FirstWithId | src/main/java/cn/wx1998/kmerit/intellij/plugins/quickmybatis/util/XmlTagLocator.java:281-295 | the id search returns a candidate whose id matches exactly or ignoring case, and finds nothing only when no candidate's id matches |
| XmlTagLocator.FindChild | src/main/java/cn/wx1998/kmerit/intellij/plugins/quickmybatis/util/XmlTagLocator.java:255-310 | a selected child bears the segment's name ignoring case, and no child is selected exactly when there are no candidates; which candidate is chosen is stated by `FindChildNoCondition`, `FindChildById` and `FindChildByIndex` |
| XmlTagLocator.FirstWithIdFinds | src/main/java/cn/wx1998/kmerit/intellij/plugins/quickmybatis/util/XmlTagLocator.java:284-295 | each id loop returns the first candidate, in candidate order, whose id matches, and nothing when no candidate's id matches |
| XmlTagLocator.FindChildNoCondition | src/main/java/cn/wx1998/kmerit/intellij/plugins/quickmybatis/util/XmlTagLocator.java:279-280 | a segment without a condition selects the first candidate |
| XmlTagLocator.FindChildById | src/main/java/cn/wx1998/kmerit/intellij/plugins/quickmybatis/util/XmlTagLocator.java:281-295 | an `@id='` condition with nothing after it throws from `substring`; otherwise the first candidate whose id equals the target is chosen, else the first whose id equals it ignoring case, else the first candidate |
| XmlTagLocator.FindChildByIndex | src/main/java/cn/wx1998/kmerit/intellij/plugins/quickmybatis/util/XmlTagLocator.java:296-309 | any other condition that is a number k from 1 to the candidate count selects the k-th candidate; a non-number or a number out of range falls back to the first candidate |
| XmlTagLocator.FirstWithIdAt | src/main/java/cn/wx1998/kmerit/intellij/plugins/quickmybatis/util/XmlTagLocator.java:284-288 | the exact-id search stops at the first candidate carrying that id |
| XmlTagLocator.IndexSegmentSelectsTag | src/main/java/cn/wx1998/kmerit/intellij/plugins/quickmybatis/util/XmlTagLocator.java:296-302 | a `name[k]` segment generated for a tag without an id selects that tag again when same-named siblings agree on case |
| XmlTagLocator.CandidateAtPosition | src/main/java/cn/wx1998/kmerit/intellij/plugins/quickmybatis/util/XmlTagLocator.java:296-302 | the k-th candidate for a tag's own name is that tag when k - 1 candidates precede it |
| XmlTagLocator.CandidatesBefore | src/main/java/cn/wx1998/kmerit/intellij/plugins/quickmybatis/util/XmlTagLocator.java:124-134 | the candidates before a tag are exactly the same-named siblings the position loop counts |
| XmlTagLocator.CandidatesThrough | src/main/java/cn/wx1998/kmerit/intellij/plugins/quickmybatis/util/XmlTagLocator.java:266-272 | taking one more child in adds its index as the last candidate for its own name |
| XmlTagLocator.CandidatesPrefix | src/main/java/cn/wx1998/kmerit/intellij/plugins/quickmybatis/util/XmlTagLocator.java:266-272 | the candidates among the first children are a prefix of all the candidates |
| XmlTagLocator.CandidatesCount | src/main/java/cn/wx1998/kmerit/intellij/plugins/quickmybatis/util/XmlTagLocator.java:124-134 | when names equal ignoring case are equal exactly, the candidates number as many as the same-named siblings |
| XmlTagLocator.IdSegmentSelectsTag | src/main/java/cn/wx1998/kmerit/intellij/plugins/quickmybatis/util/XmlTagLocator.java:281-288 | an `name[@id='id']` segment selects the first same-named sibling with exactly that id |
| XmlTagLocator.IdSegmentParses | src/main/java/cn/wx1998/kmerit/intellij/plugins/quickmybatis/util/XmlTagLocator.java:256-263 | the segment of a tag with an id splits into its name and the condition `@id='id'` |
| XmlTagLocator.IdCondition | src/main/java/cn/wx1998/kmerit/intellij/plugins/quickmybatis/util/XmlTagLocator.java:281-283 | the id is read back from between `@id='` and the closing quote |
| XmlTagLocator.ParseSegmentAt | src/main/java/cn/wx1998/kmerit/intellij/plugins/quickmybatis/util/XmlTagLocator.java:256-263 | a segment whose first '[' follows a non-empty name and which ends in ']' splits at that bracket |
| XmlTagLocator.Walk | src/main/java/cn/wx1998/kmerit/intellij/plugins/quickmybatis/util/XmlTagLocator.java:237-249 | a successful walk reaches a tag in the tree, one level further down per segment |
| XmlTagLocator.ExtendPath | src/main/java/cn/wx1998/kmerit/intellij/plugins/quickmybatis/util/XmlTagLocator.java:242-247 | stepping to a child of the current tag stays inside the tree and reaches that child |
| XmlTagLocator.FindTagByXPath | src/main/java/cn/wx1998/kmerit/intellij/plugins/quickmybatis/util/XmlTagLocator.java:237-249 | the segment loop, starting among the root's children and stopping at the first segment that matches nothing, computes the walk |
| XmlTagLocator.FindByIdAndName | src/main/java/cn/wx1998/kmerit/intellij/plugins/quickmybatis/util/XmlTagLocator.java:325-343 | a found tag matches the name ignoring case and the SQL id, comes first in pre-order among all matches, and nothing is found only when no tag matches |
| XmlTagLocator.FindInChildren | src/main/java/cn/wx1998/kmerit/intellij/plugins/quickmybatis/util/XmlTagLocator.java:335-341 | the search over the remaining children returns the pre-order-first match among their subtrees, or nothing when none matches |
| XmlTagLocator.FirstMatchingTagName | src/main/java/cn/wx1998/kmerit/intellij/plugins/quickmybatis/util/XmlTagLocator.java:387-405 | the root if its name matches, else a child of the root with that name ignoring case; nothing only when neither exists |
| XmlTagLocator.FindXmlTagByInfo | src/main/java/cn/wx1998/kmerit/intellij/plugins/quickmybatis/util/XmlTagLocator.java:158-231 | no XML file finds nothing, and a tag found other than by line number lies in the tree |
| XmlTagLocator.FindXmlTagByInfoOrder | src/main/java/cn/wx1998/kmerit/intellij/plugins/quickmybatis/util/XmlTagLocator.java:198-230 | for a file with a document and a root tag: a null xpath throws, a mapper record at "/mapper" is the root; otherwise the XPath walk decides first and its exception is passed on, then name and SQL id, then the root for a mapper record at line 0, then the line number, then the name alone (negative lines, and line 0 for other records) |
| XmlTagLocator.MapperShortcut | src/main/java/cn/wx1998/kmerit/intellij/plugins/quickmybatis/util/XmlTagLocator.java:198-201 | a mapper record with xpath "/mapper" returns the root at once |
| XmlTagLocator.GeneratedPathMissesRoot | src/main/java/cn/wx1998/kmerit/intellij/plugins/quickmybatis/util/XmlTagLocator.java:144 | a generated path starts with the root's own segment while the walk starts among the root's children, so when no child shares the root's name the XPath strategy finds nothing |
| XmlTagLocator.RootSegmentNonEmpty | src/main/java/cn/wx1998/kmerit/intellij/plugins/quickmybatis/util/XmlTagLocator.java:239 | the first segment of a generated path is non-empty, so Java's `split` keeps it |
| XmlTagLocator.RootSegmentName | src/main/java/cn/wx1998/kmerit/intellij/plugins/quickmybatis/util/XmlTagLocator.java:256-263 | the root's own segment reads back as the root's name |
| Multimap.ValuesOf | src/main/java/cn/wx1998/kmerit/jetbrains/plugins/quickmybatis/parser/MyBatisXmlParserDefault.java:247 | a value is listed under a key exactly when an entry files it there |
| Multimap.GroupIsGrouping | src/main/java/cn/wx1998/kmerit/jetbrains/plugins/quickmybatis/parser/MyBatisXmlParserDefault.java:247 | `computeIfAbsent(k, new ArrayList).add(v)` over the entries files under each key that occurs exactly the values entered under it, in entry order |
| Multimap.LastWins | src/main/java/cn/wx1998/kmerit/jetbrains/plugins/quickmybatis/parser/MyBatisXmlParserDefault.java:261 | `put` over the entries has a key exactly for the keys that occur, holding the value of the last entry under it |
| Multimap.GroupSnoc | src/main/java/cn/wx1998/kmerit/jetbrains/plugins/quickmybatis/parser/MyBatisXmlParserDefault.java:247 | one more entry appends its value to the list under its key, creating the list when absent |
| Multimap.LastWinsSnoc | src/main/java/cn/wx1998/kmerit/jetbrains/plugins/quickmybatis/parser/MyBatisXmlParserDefault.java:261 | one more entry overwrites its key |
| MapperParse.NamespaceName | src/main/java/cn/wx1998/kmerit/jetbrains/plugins/quickmybatis/parser/MyBatisXmlParserDefault.java:285-290 | for a valid mapper file the namespace is present, trimmed and non-empty |
| MapperParse.KeyOf | src/main/java/cn/wx1998/kmerit/jetbrains/plugins/quickmybatis/parser/MyBatisXmlParserDefault.java:240-244 | a key is the trimmed id of a tag that has one, and never blank where blank ids are skipped |
| MapperParse.KeyIsTrimmed | src/main/java/cn/wx1998/kmerit/jetbrains/plugins/quickmybatis/parser/MyBatisXmlParserDefault.java:243 | a key is already trimmed |
| MapperParse.KindEntries | src/main/java/cn/wx1998/kmerit/jetbrains/plugins/quickmybatis/parser/MyBatisXmlParserDefault.java:238-248 | the entries of one kind are exactly the children so named that have a key, each at its own position |
| MapperParse.KindEntriesSorted | src/main/java/cn/wx1998/kmerit/jetbrains/plugins/quickmybatis/parser/MyBatisXmlParserDefault.java:238-248 | the entries of one kind follow document order |
| MapperParse.KindsEntries | src/main/java/cn/wx1998/kmerit/jetbrains/plugins/quickmybatis/parser/MyBatisXmlParserDefault.java:237-249 | the entries for several kinds are exactly the keyed children named one of them |
| MapperParse.GroupScanStep | src/main/java/cn/wx1998/kmerit/jetbrains/plugins/quickmybatis/parser/MyBatisXmlParserDefault.java:239-248 | scanning one more child appends it under its key when it has the kind and a key, and changes nothing otherwise |
| MapperParse.LastWinsScanStep | src/main/java/cn/wx1998/kmerit/jetbrains/plugins/quickmybatis/parser/MyBatisXmlParserDefault.java:253-262 | scanning one more child puts it under its key when it has the kind and a key, and changes nothing otherwise |
| MapperParse.NoChildrenNoEntries | src/main/java/cn/wx1998/kmerit/jetbrains/plugins/quickmybatis/parser/MyBatisXmlParserDefault.java:223-226 | a root without sub-tags leaves every map empty |
| MapperParse.StatementKeys | src/main/java/cn/wx1998/kmerit/jetbrains/plugins/quickmybatis/parser/MyBatisXmlParserDefault.java:237-249 | the statement map has a key exactly for each trimmed non-blank id of a select, insert, update or delete sub-tag, and never the empty id |
| MapperParse.StatementIndices | src/main/java/cn/wx1998/kmerit/jetbrains/plugins/quickmybatis/parser/MyBatisXmlParserDefault.java:237-249 | the tags listed under an id are exactly the statement sub-tags with that id |
| MapperParse.StatementOrder | src/main/java/cn/wx1998/kmerit/jetbrains/plugins/quickmybatis/parser/MyBatisXmlParserDefault.java:237-249 | under each id the selects come first, then inserts, updates and deletes, each in the order `STATEMENT_TAGS` lists them |
| MapperParse.KindIndicesIncrease | src/main/java/cn/wx1998/kmerit/jetbrains/plugins/quickmybatis/parser/MyBatisXmlParserDefault.java:238-248 | within one kind the tags under an id follow document order |
| MapperParse.LastTagKeys | src/main/java/cn/wx1998/kmerit/jetbrains/plugins/quickmybatis/parser/MyBatisXmlParserDefault.java:252-275 | a put-by-id map has a key exactly for each trimmed id of a sub-tag of its kind |
| MapperParse.LastTagWins | src/main/java/cn/wx1998/kmerit/jetbrains/plugins/quickmybatis/parser/MyBatisXmlParserDefault.java:252-275 | under each id a put-by-id map holds the last sub-tag of its kind with that id |
| MapperParse.CountClass | src/main/java/cn/wx1998/kmerit/jetbrains/plugins/quickmybatis/parser/MyBatisXmlParserDefault.java:136-152 | no class counts more tags than there are sub-tags |
| MapperParse.ClassesPartition | src/main/java/cn/wx1998/kmerit/jetbrains/plugins/quickmybatis/parser/MyBatisXmlParserDefault.java:136-152 | every sub-tag is counted in exactly one of unsupported, statement, sql fragment or other supported |
| MapperParse.ValidateMapperStructure | src/main/java/cn/wx1998/kmerit/jetbrains/plugins/quickmybatis/parser/MyBatisXmlParserDefault.java:113-156 | the loop's three counts are the numbers of statement, sql fragment and unsupported sub-tags, together at most the number of sub-tags |
| MapperScan.AddStatementsOfKind | src/main/java/cn/wx1998/kmerit/jetbrains/plugins/quickmybatis/parser/MyBatisXmlParserDefault.java:238-248 | the inner loop for one statement kind extends the statement map by exactly that kind's entries |
| MapperScan.CollectStatements | src/main/java/cn/wx1998/kmerit/jetbrains/plugins/quickmybatis/parser/MyBatisXmlParserDefault.java:237-249 | the statement loops build the grouping of all statement entries |
| MapperScan.PutById | src/main/java/cn/wx1998/kmerit/jetbrains/plugins/quickmybatis/parser/MyBatisXmlParserDefault.java:252-275 | the sql fragment and resultMap loops build the last-wins map of their kind's entries |
| JetbrainsXmlParser.ParseResult.constructor | src/main/java/cn/wx1998/kmerit/jetbrains/plugins/quickmybatis/parser/MyBatisXmlParserDefault.java:198-213 | a new result, built only for a file with a path, holds its file and maps that agree with the file's sub-tags |
| JetbrainsXmlParser.ParseResult.ParseXmlFileDirectly | src/main/java/cn/wx1998/kmerit/jetbrains/plugins/quickmybatis/parser/MyBatisXmlParserDefault.java:218-276 | filling the maps leaves the file alone and makes all three maps agree with its sub-tags |
| JetbrainsXmlParser.ParseResult.GetStatementById | src/main/java/cn/wx1998/kmerit/jetbrains/plugins/quickmybatis/parser/MyBatisXmlParserDefault.java:349-351 | the list holds exactly the statement sub-tags with that id, and is empty exactly when there are none |
| JetbrainsXmlParser.Parse | src/main/java/cn/wx1998/kmerit/jetbrains/plugins/quickmybatis/parser/MyBatisXmlParserDefault.java:58-69 | a NullPointerException exactly for a file without a virtual file, whose path is read first; otherwise null exactly for a file that is not a valid mapper, and a fresh result for that file for one that is |
| JetbrainsXmlParser.UntrimmedIdFindsNothing | src/main/java/cn/wx1998/kmerit/jetbrains/plugins/quickmybatis/parser/MyBatisXmlParserDefault.java:243-247 | an empty or padded id finds no statement |
| JetbrainsXmlParser.StatementMapKeys | src/main/java/cn/wx1998/kmerit/jetbrains/plugins/quickmybatis/parser/MyBatisXmlParserDefault.java:237-249 | the statement map's keys are exactly the ids of statement sub-tags |
| JetbrainsXmlParser.FragmentMapsKeepLast | src/main/java/cn/wx1998/kmerit/jetbrains/plugins/quickmybatis/parser/MyBatisXmlParserDefault.java:252-275 | the sql fragment and result maps hold the last tag of their kind under each id |
| JetbrainsXmlParser.NoEmptyKeys | src/main/java/cn/wx1998/kmerit/jetbrains/plugins/quickmybatis/parser/MyBatisXmlParserDefault.java:241-271 | no map holds the empty id |
| IntellijXmlParser.ParseResult.constructor | src/main/java/cn/wx1998/kmerit/intellij/plugins/quickmybatis/parser/DefaultMyBatisXmlParser.java:186-203 | a new result holds its file and maps that agree with the file's sub-tags |
| IntellijXmlParser.ParseResult.ParseXmlFileDirectly | src/main/java/cn/wx1998/kmerit/intellij/plugins/quickmybatis/parser/DefaultMyBatisXmlParser.java:208-251 | filling the maps leaves the file alone and makes all three maps agree with its sub-tags, resultMap tags keyed even by a blank id |
| IntellijXmlParser.ParseResult.GetStatementById | src/main/java/cn/wx1998/kmerit/intellij/plugins/quickmybatis/parser/DefaultMyBatisXmlParser.java:324-331 | null exactly when no statement sub-tag has that id, otherwise a non-empty list of exactly those tags |
| IntellijXmlParser.DefaultMyBatisXmlParser.constructor | src/main/java/cn/wx1998/kmerit/intellij/plugins/quickmybatis/parser/DefaultMyBatisXmlParser.java:23 | the result cache starts empty |
| IntellijXmlParser.DefaultMyBatisXmlParser.Parse | src/main/java/cn/wx1998/kmerit/intellij/plugins/quickmybatis/parser/DefaultMyBatisXmlParser.java:54-67 | a file without a virtual file throws a NullPointerException and caches nothing; otherwise a cached path returns the cached result, an invalid file raises IllegalArgumentException with the file's name and caches nothing, and a valid one is parsed and cached under its path |
| IntellijXmlParser.BlankResultMapIdKept | src/main/java/cn/wx1998/kmerit/intellij/plugins/quickmybatis/parser/DefaultMyBatisXmlParser.java:244-249 | a resultMap tag with a blank id is filed under the empty id, the last such tag winning |
| IntellijXmlParser.NoEmptyStatementOrFragmentKey | src/main/java/cn/wx1998/kmerit/intellij/plugins/quickmybatis/parser/DefaultMyBatisXmlParser.java:214-240 | the statement and sql fragment maps never hold the empty id |
| IntellijXmlParser.ParseTwice | src/main/java/cn/wx1998/kmerit/intellij/plugins/quickmybatis/parser/DefaultMyBatisXmlParser.java:54-67 | a second parse of the same path returns the first result even when the file has changed; the first parse fails with a NullPointerException exactly when there is no path, and otherwise only with the invalid-file message |
| JavaExpr.Deque.constructor | src/main/java/cn/wx1998/kmerit/jetbrains/plugins/quickmybatis/services/JavaService.java:94 | a new deque is empty |
| JavaExpr.Deque.AddFirst | src/main/java/cn/wx1998/kmerit/jetbrains/plugins/quickmybatis/services/JavaService.java:184 | a null part is refused with a NullPointerException and the deque is left alone; a string is put in front of the deque |
| JavaExpr.Deque.AddLast | src/main/java/cn/wx1998/kmerit/jetbrains/plugins/quickmybatis/services/JavaService.java:192 | a null part is refused with a NullPointerException and the deque is left alone; a string is put behind the deque |
| JavaExpr.FlattenBinaryExpression | src/main/java/cn/wx1998/kmerit/jetbrains/plugins/quickmybatis/services/JavaService.java:173-194 | flattening in place succeeds exactly when the recursive definition does, and then leaves the deque it describes: a non-binary left operand in front, a non-binary right operand behind, binary operands flattened in turn; an operand that throws or folds to null ends the walk with a NullPointerException |
| JavaExpr.ParseBinary | src/main/java/cn/wx1998/kmerit/jetbrains/plugins/quickmybatis/services/JavaService.java:92-96 | the binary branch of `parseExpression` joins, with no separator, the parts flattening puts in front of and behind an empty deque, and throws a NullPointerException when one of those parts cannot be added |
| JavaExpr.Part | src/main/java/cn/wx1998/kmerit/jetbrains/plugins/quickmybatis/services/JavaService.java:182-192 | an operand's part is refused exactly when folding it throws or gives null, and otherwise is the folded string |
| JavaExpr.FlattenShape | src/main/java/cn/wx1998/kmerit/jetbrains/plugins/quickmybatis/services/JavaService.java:173-194 | flattening succeeds exactly when every front and back part is a string, and then wraps whatever the deque held: some parts go in front of it and the rest behind it, never between |
| JavaExpr.LeftShape | src/main/java/cn/wx1998/kmerit/jetbrains/plugins/quickmybatis/services/JavaService.java:180-185 | handling the left operand also wraps the deque, and fails exactly when one of its parts is refused |
| JavaExpr.EvalBinaryParts | src/main/java/cn/wx1998/kmerit/jetbrains/plugins/quickmybatis/services/JavaService.java:92-96 | a binary expression is worth the concatenation of its front and back parts, or throws a NullPointerException when one of them is refused |
| JavaExpr.LeftSpineInOrder | src/main/java/cn/wx1998/kmerit/jetbrains/plugins/quickmybatis/services/JavaService.java:173-194 | for a left-nested concatenation such as `a + b + c` the deque holds the operands in source order, so the result is their concatenation, or a NullPointerException when an operand throws or folds to null |
| JavaExpr.FrontBackPermutesOperands | src/main/java/cn/wx1998/kmerit/jetbrains/plugins/quickmybatis/services/JavaService.java:173-194 | whatever the nesting, the parts in the deque are the operands' parts in some order: a permutation of the operands in source order |
| JavaExpr.BinaryThrowsIffOperandRefused | src/main/java/cn/wx1998/kmerit/jetbrains/plugins/quickmybatis/services/JavaService.java:92-96 | a binary expression throws exactly when one of its operands, in any position, throws or folds to null, and otherwise folds to a non-null string |
| JavaExpr.NullOperandThrows | src/main/java/cn/wx1998/kmerit/jetbrains/plugins/quickmybatis/services/JavaService.java:97-104 | `"ns." + f(1)`: the call folds to null and `addLast(null)` throws a NullPointerException |
| JavaExpr.RightNestedOrder | src/main/java/cn/wx1998/kmerit/jetbrains/plugins/quickmybatis/services/JavaService.java:188-193 | for `a + (b + c)` the inner left operand goes to the front, so the result is b, then a, then c; when any of the three throws or folds to null the sum throws a NullPointerException |
| JavaExpr.RightNestedExample | src/main/java/cn/wx1998/kmerit/jetbrains/plugins/quickmybatis/services/JavaService.java:188-193 | `"a" + ("." + "b")` folds to ".ab" |
| JavaExpr.ParenthesisedOperandDropped | src/main/java/cn/wx1998/kmerit/jetbrains/plugins/quickmybatis/services/JavaService.java:166-167 | as written, the documented `"namespace" + ("." + "selectUser")` folds to "namespace": the parenthesised operand is of no kind `parseExpression` handles and yields "" |
| JavaExpr.EvalInOrder | src/main/java/cn/wx1998/kmerit/jetbrains/plugins/quickmybatis/services/JavaService.java:162-167 | the corrected fold joins every operand, parentheses opened, in source order, and is never null when it succeeds |
| JavaExpr.EvalInOrderRegroups | src/main/java/cn/wx1998/kmerit/jetbrains/plugins/quickmybatis/services/JavaService.java:162-167 | the corrected fold of `a + (b + c)` equals that of `a + b + c` |
| JavaExpr.EvalInOrderExample | src/main/java/cn/wx1998/kmerit/jetbrains/plugins/quickmybatis/services/JavaService.java:166-167 | the corrected fold gives the documented "namespace.selectUser" |
| JavaExpr.InOrderOperands | src/main/java/cn/wx1998/kmerit/jetbrains/plugins/quickmybatis/services/JavaService.java:173-194 | without parentheses the code's in-order operand parts are the corrected fold's operands, in source order |
| JavaExpr.EvalInOrderAgrees | src/main/java/cn/wx1998/kmerit/jetbrains/plugins/quickmybatis/services/JavaService.java:162-167 | on a left-nested sum without parentheses the corrected fold equals the code's |
| JavaExpr.PolyadicConcat | src/main/java/cn/wx1998/kmerit/jetbrains/plugins/quickmybatis/services/JavaService.java:148-153 | a polyadic expression throws exactly when one of its operands throws; otherwise it folds to the concatenation of its operands' values, null operands written "null", split at any point |
| JavaExpr.CallFirstArgument | src/main/java/cn/wx1998/kmerit/jetbrains/plugins/quickmybatis/services/JavaService.java:97-110 | a call with arguments is worth its first argument: a string literal's value, null for another literal, the folded binary, the folded reference in the newer version, and "" otherwise, a parenthesised argument included |
| JavaExpr.ClassNameCall | src/main/java/cn/wx1998/kmerit/jetbrains/plugins/quickmybatis/services/JavaService.java:111-128 | `X.class.getName()` folds to X's qualified name, and any other argument-less call to "" |
| JavaExpr.ReplaceFirstParam | src/main/java/cn/wx1998/kmerit/jetbrains/plugins/quickmybatis/services/JavaService.java:205-229 | null name or value leaves the text alone; otherwise the text from the first '(' after the name to the first ',' (else ')') is replaced by the quoted value, and the text is unchanged exactly when no such span exists |
| JavaExpr.ReplaceFirstParamShape | src/main/java/cn/wx1998/kmerit/jetbrains/plugins/quickmybatis/services/JavaService.java:226-228 | the rewritten call keeps its opening parenthesis before the value and the old separator after it |
| JavaExpr.IsSqlSessionMethod | src/main/java/cn/wx1998/kmerit/jetbrains/plugins/quickmybatis/services/JavaService.java:282-301 | true exactly for an explicitly public method of a class whose qualified name equals one of the class filter patterns |
| JavaExpr.AnyEquals | src/main/java/cn/wx1998/kmerit/jetbrains/plugins/quickmybatis/services/JavaService.java:293-298 | the filter loop is true exactly when some pattern equals the name, null equal to null |
| JavaExpr.IsSqlSessionCall | src/main/java/cn/wx1998/kmerit/jetbrains/plugins/quickmybatis/services/JavaService.java:260-274 | an unresolved call or a method without a class throws a NullPointerException; otherwise true exactly when the class name is among the filter patterns |
| JavaExpr.ClassSqlId | src/main/java/cn/wx1998/kmerit/intellij/plugins/quickmybatis/services/JavaService.java:328-335 | the class SQL id is null exactly when the class has no qualified name |
| JavaExpr.MemberSqlId | src/main/java/cn/wx1998/kmerit/intellij/plugins/quickmybatis/services/JavaService.java:341-369 | the method or field SQL id is null exactly when the member has no class, the class no qualified name or the member no name |
| JavaExpr.DefaultClassSqlId | src/main/java/cn/wx1998/kmerit/intellij/plugins/quickmybatis/services/JavaService.java:332-334 | with the default rule the class SQL id is the qualified class name |
| JavaExpr.DefaultMemberSqlId | src/main/java/cn/wx1998/kmerit/intellij/plugins/quickmybatis/services/JavaService.java:349-351 | with the default rules a method or field SQL id is the class name, a dot and the member name |
| JavaExpr.MemberPlaceholdersDiffer | src/main/java/cn/wx1998/kmerit/intellij/plugins/quickmybatis/services/JavaService.java:351 | replacing the class placeholder leaves the member placeholders intact |
| JavaExpr.TemplateExpands | src/main/java/cn/wx1998/kmerit/intellij/plugins/quickmybatis/services/JavaService.java:351 | replacing the class placeholder and then the member placeholder in `class.member` gives the class name, a dot and the member name |
| JavaExpr.ProcessMethodCall | src/main/java/cn/wx1998/kmerit/intellij/plugins/quickmybatis/services/JavaService.java:306-322 | the fold's NullPointerException escapes exactly when the call is valid, is a SqlSession call and its id expression throws; otherwise a pair reaches the cache exactly when the call folds to a non-blank id and has a file, and the pair is that id with the element record |
| JavaExpr.ProcessMethodCallSkips | src/main/java/cn/wx1998/kmerit/intellij/plugins/quickmybatis/services/JavaService.java:313-314 | a call whose first argument is a non-string literal or a blank string stores nothing |
| JavaExpr.EvalLiteralArgument | src/main/java/cn/wx1998/kmerit/intellij/plugins/quickmybatis/services/JavaService.java:97-99 | a call whose first argument is a literal is worth that literal's string, or null |
| JavaParser.HasTestAnnotation | src/main/java/cn/wx1998/kmerit/intellij/plugins/quickmybatis/parser/JavaParserDefault.java:157-173 | true exactly when one of the annotations is one of the four test annotations |
| JavaParser.AnyTestMethod | src/main/java/cn/wx1998/kmerit/intellij/plugins/quickmybatis/parser/JavaParserDefault.java:143-147 | true exactly when some method of the class carries a test annotation |
| JavaParser.AnyTestMarked | src/main/java/cn/wx1998/kmerit/intellij/plugins/quickmybatis/parser/JavaParserDefault.java:137-148 | true exactly when some class, or some method of it, carries a test annotation |
| JavaParser.IsTestClass | src/main/java/cn/wx1998/kmerit/intellij/plugins/quickmybatis/parser/JavaParserDefault.java:127-152 | a file is a test exactly when its path contains the Unix or Windows test source directory or some class or method carries a test annotation |
| JavaParser.PublicNamesMatch | src/main/java/cn/wx1998/kmerit/intellij/plugins/quickmybatis/parser/JavaParserDefault.java:103-112 | true exactly when every public class's name plus ".java" is the file name |
| JavaParser.TestMethodRejects | src/main/java/cn/wx1998/kmerit/intellij/plugins/quickmybatis/parser/JavaParserDefault.java:115-118 | a file with a test-annotated method anywhere is not a valid Java file |
| JavaParser.PublicClassesShareName | src/main/java/cn/wx1998/kmerit/intellij/plugins/quickmybatis/parser/JavaParserDefault.java:103-112 | in a valid file all public classes bear the same name |
| JavaParser.CallKey | src/main/java/cn/wx1998/kmerit/intellij/plugins/quickmybatis/parser/JavaParserDefault.java:256-270 | a call is filed exactly when it is a SqlSession call with an argument whose first argument folds, without throwing, to a non-null, non-empty string, and it is filed under that string |
| JavaParser.FieldKey | src/main/java/cn/wx1998/kmerit/intellij/plugins/quickmybatis/parser/JavaParserDefault.java:276-289 | a field is filed exactly when it is a String whose initializer folds, without throwing, to a non-empty string starting with the class's qualified name, and it is filed under that string |
| JavaParser.UninitializedFieldSkipped | src/main/java/cn/wx1998/kmerit/intellij/plugins/quickmybatis/parser/JavaParserDefault.java:280-283 | a field without an initializer folds to "" and is never filed |
| JavaParser.ClassEntriesMembers | src/main/java/cn/wx1998/kmerit/intellij/plugins/quickmybatis/parser/JavaParserDefault.java:234-245 | the class entries are exactly the classes of the map's kind, each under its qualified name |
| JavaParser.MethodsOfMembers | src/main/java/cn/wx1998/kmerit/intellij/plugins/quickmybatis/parser/JavaParserDefault.java:240-242 | the method entries of one class are its methods, each under className.methodName |
| JavaParser.MethodEntriesMembers | src/main/java/cn/wx1998/kmerit/intellij/plugins/quickmybatis/parser/JavaParserDefault.java:237-251 | the method entries are exactly the methods of the classes of the map's kind |
| JavaParser.CallsOfMembers | src/main/java/cn/wx1998/kmerit/intellij/plugins/quickmybatis/parser/JavaParserDefault.java:256-270 | the call entries of one body are exactly its calls that have a key |
| JavaParser.CallsInMethodsMembers | src/main/java/cn/wx1998/kmerit/intellij/plugins/quickmybatis/parser/JavaParserDefault.java:252-271 | the call entries of a class's methods are empty without the flag, and otherwise exactly the keyed calls in the bodies |
| JavaParser.CallEntriesMembers | src/main/java/cn/wx1998/kmerit/intellij/plugins/quickmybatis/parser/JavaParserDefault.java:244-272 | the call entries are exactly the keyed calls of plain classes when calls are included |
| JavaParser.FieldsOfMembers | src/main/java/cn/wx1998/kmerit/intellij/plugins/quickmybatis/parser/JavaParserDefault.java:275-289 | the field entries of one class are exactly its fields that have a key |
| JavaParser.FieldEntriesMembers | src/main/java/cn/wx1998/kmerit/intellij/plugins/quickmybatis/parser/JavaParserDefault.java:275-289 | the field entries are exactly the keyed fields of every class, whatever its kind |
| JavaParser.AddMethod | src/main/java/cn/wx1998/kmerit/intellij/plugins/quickmybatis/parser/JavaParserDefault.java:240-242 | filing one more method extends the grouping by that method's entry |
| JavaParser.AddMethods | src/main/java/cn/wx1998/kmerit/intellij/plugins/quickmybatis/parser/JavaParserDefault.java:239-243 | the loop over an interface's methods extends the grouping by all its method entries |
| JavaParser.AddCalls | src/main/java/cn/wx1998/kmerit/intellij/plugins/quickmybatis/parser/JavaParserDefault.java:255-271 | the loop over one body's calls extends the grouping by its call entries |
| JavaParser.AddMethodCalls | src/main/java/cn/wx1998/kmerit/intellij/plugins/quickmybatis/parser/JavaParserDefault.java:252-272 | the call part of one method adds nothing unless calls are included and the method has a body |
| JavaParser.AddClassMethods | src/main/java/cn/wx1998/kmerit/intellij/plugins/quickmybatis/parser/JavaParserDefault.java:246-273 | the loop over a plain class's methods extends both the method grouping and the call grouping |
| JavaParser.AddFields | src/main/java/cn/wx1998/kmerit/intellij/plugins/quickmybatis/parser/JavaParserDefault.java:275-289 | the loop over a class's fields extends the field grouping by that class's field entries |
| JavaParser.AddField | src/main/java/cn/wx1998/kmerit/intellij/plugins/quickmybatis/parser/JavaParserDefault.java:276-288 | one pass of the field loop files the field exactly when it has a key |
| JavaParser.FieldsOfStep | src/main/java/cn/wx1998/kmerit/intellij/plugins/quickmybatis/parser/JavaParserDefault.java:276-288 | one more field adds at most its own entry |
| JavaParser.ScanInterface | src/main/java/cn/wx1998/kmerit/intellij/plugins/quickmybatis/parser/JavaParserDefault.java:237-243 | an interface is put in the interface map and its methods in the interface method map |
| JavaParser.ScanPlainClass | src/main/java/cn/wx1998/kmerit/intellij/plugins/quickmybatis/parser/JavaParserDefault.java:244-273 | a plain class is put in the class map and its methods and calls in theirs |
| JavaParser.SkippedClass | src/main/java/cn/wx1998/kmerit/intellij/plugins/quickmybatis/parser/JavaParserDefault.java:237-245 | a class of a kind a map does not keep adds nothing to that map |
| JavaParser.ScanClasses | src/main/java/cn/wx1998/kmerit/intellij/plugins/quickmybatis/parser/JavaParserDefault.java:231-291 | one pass over the classes fills all six maps with what the specification of each map describes |
| JavaParser.ParseResult.constructor | src/main/java/cn/wx1998/kmerit/intellij/plugins/quickmybatis/parser/JavaParserDefault.java:225-229 | a new result holds its file and flag and maps that agree with the file's classes |
| JavaParser.ParseResult.InitializeMaps | src/main/java/cn/wx1998/kmerit/intellij/plugins/quickmybatis/parser/JavaParserDefault.java:231-291 | filling the maps leaves file and flag alone and makes all six maps agree with the file's classes |
| JavaParser.ParseResult.GetInterfaceMethodsByName | src/main/java/cn/wx1998/kmerit/intellij/plugins/quickmybatis/parser/JavaParserDefault.java:321-323 | the list under a key holds exactly the interface methods filed under it, empty for an unknown key |
| JavaParser.ParseResult.GetClassMethodsByName | src/main/java/cn/wx1998/kmerit/intellij/plugins/quickmybatis/parser/JavaParserDefault.java:326-328 | the list under a key holds exactly the plain-class methods filed under it, empty for an unknown key |
| JavaParser.ParseResult.GetStaticStringFieldByName | src/main/java/cn/wx1998/kmerit/intellij/plugins/quickmybatis/parser/JavaParserDefault.java:341-343 | the list under a key holds exactly the fields filed under it, empty for an unknown key |
| JavaParser.MethodsFiled | src/main/java/cn/wx1998/kmerit/intellij/plugins/quickmybatis/parser/JavaParserDefault.java:240-250 | the method entries under a key are exactly the methods whose className.methodName is that key |
| JavaParser.FieldsFiled | src/main/java/cn/wx1998/kmerit/intellij/plugins/quickmybatis/parser/JavaParserDefault.java:275-289 | the field entries under a key are exactly the fields with that key |
| JavaParser.Parse | src/main/java/cn/wx1998/kmerit/intellij/plugins/quickmybatis/parser/JavaParserDefault.java:57-84 | a file without a virtual file throws a NullPointerException; so does a valid file one of whose filed calls or fields throws while folding; otherwise null exactly for an invalid file and a fresh, filled result for a valid one |
| JavaParser.ParseChecked | src/main/java/cn/wx1998/kmerit/intellij/plugins/quickmybatis/parser/JavaParserDefault.java:57-69 | null exactly for an invalid file, a missing virtual file included; a NullPointerException exactly for a valid file one of whose calls or fields throws while folding; a fresh, filled result otherwise |
| JavaParser.ClassMapsSortClasses | src/main/java/cn/wx1998/kmerit/intellij/plugins/quickmybatis/parser/JavaParserDefault.java:237-245 | interfaces go only into the interface map and plain classes only into the class map, each under its qualified name, the last one winning |
| JavaParser.ClassMapKeys | src/main/java/cn/wx1998/kmerit/intellij/plugins/quickmybatis/parser/JavaParserDefault.java:238-245 | the class map of one kind has a key for each qualified name of a class of that kind, holding such a class |
| JavaParser.EnumsAndAnnotationsSkipped | src/main/java/cn/wx1998/kmerit/intellij/plugins/quickmybatis/parser/JavaParserDefault.java:244 | an enum or annotation type is in no class map and none of its methods in a method map |
| JavaParser.OverloadsShareKey | src/main/java/cn/wx1998/kmerit/intellij/plugins/quickmybatis/parser/JavaParserDefault.java:247-250 | overloads of a method are filed under one key |
| JavaParser.MethodCallEntries | src/main/java/cn/wx1998/kmerit/intellij/plugins/quickmybatis/parser/JavaParserDefault.java:252-270 | a call is under a key exactly when calls are included and it is a keyed SqlSession call in a plain class's method body |
| JavaParser.NoCallsWithoutFlag | src/main/java/cn/wx1998/kmerit/intellij/plugins/quickmybatis/parser/JavaParserDefault.java:252 | `parse`, without method calls, leaves the method-call map empty |
| JavaParser.StringFieldKeys | src/main/java/cn/wx1998/kmerit/intellij/plugins/quickmybatis/parser/JavaParserDefault.java:279-285 | every static-string-field key is non-empty, belongs to a String field and starts with its class's qualified name |
| JavaParser.QualifiedNameOfPublicClass | src/main/java/cn/wx1998/kmerit/intellij/plugins/quickmybatis/parser/JavaParserDefault.java:294-297 | for a valid file the qualified name is the package, a dot and the public class's name |
| ProjectFiles.Unsigned | src/main/java/cn/wx1998/kmerit/jetbrains/plugins/quickmybatis/util/ProjectFileUtils.java:143 | `0xff & b` reads a byte as a value below 256 congruent to it modulo 256 |
| ProjectFiles.HexValue | src/main/java/cn/wx1998/kmerit/jetbrains/plugins/quickmybatis/util/ProjectFileUtils.java:143-147 | a hex character stands for a digit below 16 |
| ProjectFiles.HexValueOfDigit | src/main/java/cn/wx1998/kmerit/jetbrains/plugins/quickmybatis/util/ProjectFileUtils.java:143-147 | each digit's lowercase hex character reads back as that digit |
| ProjectFiles.ToHexString | src/main/java/cn/wx1998/kmerit/jetbrains/plugins/quickmybatis/util/ProjectFileUtils.java:143 | `Integer.toHexString` of a byte value has one or two characters, one exactly when the value is below 16 |
| ProjectFiles.HexOfByte | src/main/java/cn/wx1998/kmerit/jetbrains/plugins/quickmybatis/util/ProjectFileUtils.java:143-147 | each byte becomes its high and low nibble as two lowercase hex digits, a single digit padded with '0' |
| ProjectFiles.HexLength | src/main/java/cn/wx1998/kmerit/jetbrains/plugins/quickmybatis/util/ProjectFileUtils.java:141-149 | the encoding has two characters per digest byte |
| ProjectFiles.HexIsLowercase | src/main/java/cn/wx1998/kmerit/jetbrains/plugins/quickmybatis/util/ProjectFileUtils.java:141-149 | every character of the encoding is a lowercase hex digit |
| ProjectFiles.HexOfByteDecodes | src/main/java/cn/wx1998/kmerit/jetbrains/plugins/quickmybatis/util/ProjectFileUtils.java:143-147 | one byte's two characters read back give the byte |
| ProjectFiles.UnhexPair | src/main/java/cn/wx1998/kmerit/jetbrains/plugins/quickmybatis/util/ProjectFileUtils.java:141-149 | decoding a string followed by one more pair of characters appends that pair's byte |
| ProjectFiles.UnhexSnoc | src/main/java/cn/wx1998/kmerit/jetbrains/plugins/quickmybatis/util/ProjectFileUtils.java:141-149 | decoding a string followed by one more byte's characters appends that byte |
| ProjectFiles.HexUnfold | src/main/java/cn/wx1998/kmerit/jetbrains/plugins/quickmybatis/util/ProjectFileUtils.java:142-148 | the encoding of a digest ends with its last byte's two characters |
| ProjectFiles.UnhexHex | src/main/java/cn/wx1998/kmerit/jetbrains/plugins/quickmybatis/util/ProjectFileUtils.java:141-149 | decoding the encoding gives back the digest, so the encoding loses nothing |
| ProjectFiles.HexInjective | src/main/java/cn/wx1998/kmerit/jetbrains/plugins/quickmybatis/util/ProjectFileUtils.java:141-149 | different digests never share an encoding |
| ProjectFiles.HexEncode | src/main/java/cn/wx1998/kmerit/jetbrains/plugins/quickmybatis/util/ProjectFileUtils.java:141-149 | the StringBuilder loop produces the encoding of the digest |
| ProjectFiles.CalculateFileDigest | src/main/java/cn/wx1998/kmerit/jetbrains/plugins/quickmybatis/util/ProjectFileUtils.java:124-159 | a readable regular file with SHA-256 available gives the hex encoding of its digest, two characters per byte; a missing path, a non-file, a read failure or a missing algorithm gives "" |
| ProjectFiles.CalculateFileDigestsParallel | src/main/java/cn/wx1998/kmerit/jetbrains/plugins/quickmybatis/util/ProjectFileUtils.java:167-246 | no paths or a timeout give the empty map; otherwise exactly the requested paths with a non-blank computed digest, each with that digest |
| ProjectFiles.Collected | src/main/java/cn/wx1998/kmerit/jetbrains/plugins/quickmybatis/util/ProjectFileUtils.java:93-122 | every collected file is accepted: a requested lower-cased extension, not excluded, in source content |
| ProjectFiles.CollectedIn | src/main/java/cn/wx1998/kmerit/jetbrains/plugins/quickmybatis/util/ProjectFileUtils.java:103-121 | what the first children of a directory contribute is accepted files only |
| ProjectFiles.NoExtensionsNoFiles | src/main/java/cn/wx1998/kmerit/jetbrains/plugins/quickmybatis/util/ProjectFileUtils.java:95-96 | with no extension requested nothing is collected |
| ProjectFiles.AcceptedChildCollected | src/main/java/cn/wx1998/kmerit/jetbrains/plugins/quickmybatis/util/ProjectFileUtils.java:108-118 | every accepted file directly in a directory is collected |
| ProjectFiles.FindFilesRecursively | src/main/java/cn/wx1998/kmerit/jetbrains/plugins/quickmybatis/util/ProjectFileUtils.java:93-122 | the recursion appends to the result exactly the accepted files under the directory, descending into sub-directories in child order |
| ProjectFiles.CollectedInStep | src/main/java/cn/wx1998/kmerit/jetbrains/plugins/quickmybatis/util/ProjectFileUtils.java:103-121 | one more child adds its own contribution after what the children before it gave |
| CacheStore.UniqueFilePaths | src/main/java/cn/wx1998/kmerit/jetbrains/plugins/quickmybatis/cache/MyBatisCacheDefault.java:60 | the batch's paths are exactly the non-null, non-blank file paths of its rows, each once |
| CacheStore.GroupBySqlId | src/main/java/cn/wx1998/kmerit/jetbrains/plugins/quickmybatis/cache/MyBatisCacheDefault.java:192-225 | no rows give the empty map; every set is non-empty and holds only stored rows with its key as SQL id; every stored row with a SQL id is in the set under it, rows without one nowhere |
| CacheStore.KeysAreStoredSqlIds | src/main/java/cn/wx1998/kmerit/jetbrains/plugins/quickmybatis/cache/MyBatisCacheDefault.java:198-204 | every key of the grouping is the SQL id of some stored row |
| CacheStore.XmlHashSet | src/main/java/cn/wx1998/kmerit/jetbrains/plugins/quickmybatis/cache/MyBatisCacheDefault.java:106 | `new HashSet<>(list)` keeps, for each identity under `equals`, the first row of the list with it, and nothing else |
| CacheStore.HashSetHasNoDuplicates | src/main/java/cn/wx1998/kmerit/jetbrains/plugins/quickmybatis/cache/MyBatisCacheDefault.java:106 | the set holds no two rows that `equals` identifies |
| CacheStore.HashSetRepresentsEveryRow | src/main/java/cn/wx1998/kmerit/jetbrains/plugins/quickmybatis/cache/MyBatisCacheDefault.java:106 | every row of the list is represented in the set by a row with the same identity |
| CacheStore.WithSqlId | src/main/java/cn/wx1998/kmerit/jetbrains/plugins/quickmybatis/cache/MyBatisCacheDefault.java:75 | the rows with a SQL id are exactly the table's rows that carry it |
| CacheStore.WithoutPath | src/main/java/cn/wx1998/kmerit/jetbrains/plugins/quickmybatis/cache/MyBatisCacheDefault.java:163-172 | after dropping a file's rows the table holds exactly its rows of other paths |
| CacheStore.WithoutSqlIds | src/main/java/cn/wx1998/kmerit/jetbrains/plugins/quickmybatis/cache/MyBatisCacheDefault.java:245-246 | after dropping SQL ids the table holds exactly its rows whose SQL id is not among them |
| CacheStore.WithoutNoSqlIds | src/main/java/cn/wx1998/kmerit/jetbrains/plugins/quickmybatis/cache/MyBatisCacheDefault.java:245-246 | dropping no SQL id keeps the table as it is |
| CacheStore.WithoutMethodCalls | src/main/java/cn/wx1998/kmerit/jetbrains/plugins/quickmybatis/cache/MyBatisCacheDefault.java:183 | the remaining Java rows are exactly those that are not method calls, the table shrinking by the number of method calls |
| CacheStore.MethodCalls | src/main/java/cn/wx1998/kmerit/jetbrains/plugins/quickmybatis/cache/MyBatisCacheDefault.java:265-266 | the method-call rows are exactly the Java rows typed as method calls |
| CacheStore.MyBatisCacheDefault.constructor | src/main/java/cn/wx1998/kmerit/jetbrains/plugins/quickmybatis/cache/MyBatisCacheDefault.java:43-44 | a new store has no rows and no digests |
| CacheStore.MyBatisCacheDefault.AddJavaElementMapping | src/main/java/cn/wx1998/kmerit/jetbrains/plugins/quickmybatis/cache/MyBatisCacheDefault.java:55-67 | the batch is appended to the Java rows, the XML rows are unchanged, and a digest is stored for exactly the batch's usable paths whose digest came back, every other digest unchanged |
| CacheStore.MyBatisCacheDefault.AddXmlElementMapping | src/main/java/cn/wx1998/kmerit/jetbrains/plugins/quickmybatis/cache/MyBatisCacheDefault.java:85-97 | the batch is appended to the XML rows, the Java rows are unchanged, and a digest is stored for exactly the batch's usable paths whose digest came back, every other digest unchanged |
| CacheStore.MyBatisCacheDefault.GetJavaElementsBySqlId | src/main/java/cn/wx1998/kmerit/jetbrains/plugins/quickmybatis/cache/MyBatisCacheDefault.java:74-77 | the set holds exactly the stored Java rows with that SQL id |
| CacheStore.MyBatisCacheDefault.GetXmlElementsBySqlId | src/main/java/cn/wx1998/kmerit/jetbrains/plugins/quickmybatis/cache/MyBatisCacheDefault.java:104-107 | the set holds stored XML rows with that SQL id only, represents every such row, and holds no two rows that `equals` identifies |
| CacheStore.MyBatisCacheDefault.GetSqlIdToJavaElements | src/main/java/cn/wx1998/kmerit/jetbrains/plugins/quickmybatis/cache/MyBatisCacheDefault.java:192-206 | an empty store gives the empty map; each stored Java row with a SQL id is under that id, and each set is non-empty and holds only rows with its key |
| CacheStore.MyBatisCacheDefault.GetSqlIdToXmlElements | src/main/java/cn/wx1998/kmerit/jetbrains/plugins/quickmybatis/cache/MyBatisCacheDefault.java:212-226 | an empty store gives the empty map; each stored XML row with a SQL id is represented under that id, and each set is non-empty and holds only rows with its key |
| CacheStore.MyBatisCacheDefault.SaveFileDigest | src/main/java/cn/wx1998/kmerit/jetbrains/plugins/quickmybatis/cache/MyBatisCacheDefault.java:135-138 | the path's digest is recorded and the rows are unchanged |
| CacheStore.MyBatisCacheDefault.ClearJavaFileCache | src/main/java/cn/wx1998/kmerit/jetbrains/plugins/quickmybatis/cache/MyBatisCacheDefault.java:163-165 | the file's Java rows are dropped, the rest kept in order, and the XML rows and digests unchanged |
| CacheStore.MyBatisCacheDefault.ClearXmlFileCache | src/main/java/cn/wx1998/kmerit/jetbrains/plugins/quickmybatis/cache/MyBatisCacheDefault.java:171-173 | the file's XML rows are dropped, the rest kept in order, and the Java rows and digests unchanged |
| CacheStore.MyBatisCacheDefault.RemoveBySqlIdList | src/main/java/cn/wx1998/kmerit/jetbrains/plugins/quickmybatis/cache/MyBatisCacheDefault.java:245-247 | the Java and XML rows of the given SQL ids are dropped, the rest kept in order, and the digests unchanged |
| CacheStore.MyBatisCacheDefault.ClearCache | src/main/java/cn/wx1998/kmerit/jetbrains/plugins/quickmybatis/cache/MyBatisCacheDefault.java:179-186 | XML clears the XML rows, JAVA the Java rows, JAVA_METHOD_CALL the method-call rows only, and ALL every row and every digest; nothing else changes |
| CacheManager.ClearedMembers | src/main/java/cn/wx1998/kmerit/jetbrains/plugins/quickmybatis/cache/MyBatisCacheManagerDefault.java:372-379 | after clearing a set of paths a row survives exactly when it was stored and its path is not one of the cleared paths carrying the table's suffix; survivors keep their order |
| CacheManager.ClearedOne | src/main/java/cn/wx1998/kmerit/jetbrains/plugins/quickmybatis/cache/MyBatisCacheManagerDefault.java:372-379 | clearing one path deletes that path's rows from the table whose suffix it ends with, and leaves the other table as it was |
| CacheManager.ClearedTwice | src/main/java/cn/wx1998/kmerit/jetbrains/plugins/quickmybatis/cache/MyBatisCacheManagerDefault.java:218-238 | clearing one set of paths and then another is the same as clearing their union at once, so the scan's clears compose |
| CacheManager.ClearedNothing | src/main/java/cn/wx1998/kmerit/jetbrains/plugins/quickmybatis/cache/MyBatisCacheManagerDefault.java:201-249 | clearing no path leaves a table unchanged |
| CacheManager.SuffixesExclusive | src/main/java/cn/wx1998/kmerit/jetbrains/plugins/quickmybatis/cache/MyBatisCacheManagerDefault.java:374-377 | no path ends with both ".java" and ".xml", so one clear touches at most one table |
| CacheManager.Examine | src/main/java/cn/wx1998/kmerit/jetbrains/plugins/quickmybatis/cache/MyBatisCacheManagerDefault.java:215-232 | a stored path is gone exactly when the file system lacks it, changed when its fresh digest differs from the stored one (and the verdict carries the fresh digest), unchanged exactly when the digests agree |
| CacheManager.RemoveFirst | src/main/java/cn/wx1998/kmerit/jetbrains/plugins/quickmybatis/cache/MyBatisCacheManagerDefault.java:213 | `List.remove(Object)` leaves a list without the path alone and otherwise shortens it by exactly one |
| CacheManager.Without | src/main/java/cn/wx1998/kmerit/jetbrains/plugins/quickmybatis/cache/MyBatisCacheManagerDefault.java:213 | the kept paths are exactly the listed ones outside the removed set |
| CacheManager.RemoveFirstDistinct | src/main/java/cn/wx1998/kmerit/jetbrains/plugins/quickmybatis/cache/MyBatisCacheManagerDefault.java:213 | on a list without duplicates, removing the first occurrence removes every occurrence |
| CacheManager.WithoutAbsent | src/main/java/cn/wx1998/kmerit/jetbrains/plugins/quickmybatis/cache/MyBatisCacheManagerDefault.java:213 | removing paths the list does not hold leaves it as it was |
| CacheManager.WithoutTwice | src/main/java/cn/wx1998/kmerit/jetbrains/plugins/quickmybatis/cache/MyBatisCacheManagerDefault.java:209-213 | removing one set of paths and then another is removing their union |
| CacheManager.WithoutKeepsDistinct | src/main/java/cn/wx1998/kmerit/jetbrains/plugins/quickmybatis/cache/MyBatisCacheManagerDefault.java:213 | removing paths from a duplicate-free list keeps it duplicate-free |
| CacheManager.RemoveFirstMultiset | src/main/java/cn/wx1998/kmerit/jetbrains/plugins/quickmybatis/cache/MyBatisCacheManagerDefault.java:213 | whatever the list's order, `remove` takes exactly one occurrence of the path off its multiset of paths |
| CacheManager.TouchedStep | src/main/java/cn/wx1998/kmerit/jetbrains/plugins/quickmybatis/cache/MyBatisCacheManagerDefault.java:215-232 | visiting one more stored path adds it to the cleared set exactly when its file is gone or changed |
| CacheManager.RefreshedNothing | src/main/java/cn/wx1998/kmerit/jetbrains/plugins/quickmybatis/cache/MyBatisCacheManagerDefault.java:208-209 | before the first loop visits anything the digest table is the snapshot |
| CacheManager.RefreshedStep | src/main/java/cn/wx1998/kmerit/jetbrains/plugins/quickmybatis/cache/MyBatisCacheManagerDefault.java:225-229 | visiting one more stored path replaces its digest exactly when it changed, and with the fresh digest |
| CacheManager.PrefixGrows | src/main/java/cn/wx1998/kmerit/jetbrains/plugins/quickmybatis/cache/MyBatisCacheManagerDefault.java:236 | the paths the second loop has visited grow by the next one |
| CacheManager.MinusOneMore | src/main/java/cn/wx1998/kmerit/jetbrains/plugins/quickmybatis/cache/MyBatisCacheManagerDefault.java:213 | taking one more visited path off the multiset still to visit is subtracting the grown visited set |
| CacheManager.WorkingStep | src/main/java/cn/wx1998/kmerit/jetbrains/plugins/quickmybatis/cache/MyBatisCacheManagerDefault.java:213 | after one more `remove`, the working list holds the listed paths minus the visited stored ones as a multiset, and, for a duplicate-free listing, is exactly that listing without them, still duplicate-free |
| CacheManager.ElemsOf | src/main/java/cn/wx1998/kmerit/jetbrains/plugins/quickmybatis/cache/MyBatisCacheManagerDefault.java:236 | the set holds exactly the paths the list holds |
| CacheManager.NewDigests | src/main/java/cn/wx1998/kmerit/jetbrains/plugins/quickmybatis/cache/MyBatisCacheManagerDefault.java:236-246 | the second loop stores a digest for exactly the listed paths the file system holds, each the digest of that file |
| CacheManager.MergeThenStore | src/main/java/cn/wx1998/kmerit/jetbrains/plugins/quickmybatis/cache/MyBatisCacheManagerDefault.java:243 | storing one more digest after the earlier ones is storing it among them |
| CacheManager.BookkeptStep | src/main/java/cn/wx1998/kmerit/jetbrains/plugins/quickmybatis/cache/MyBatisCacheManagerDefault.java:209-233 | one more turn of the first loop keeps its bookkeeping: the count grows by one for a gone or changed file, the path leaves the working list, and a changed file joins the re-parsed list |
| CacheManager.CountStep | src/main/java/cn/wx1998/kmerit/jetbrains/plugins/quickmybatis/cache/MyBatisCacheManagerDefault.java:219-231 | `changedCount` grows by one exactly for a gone or changed stored file |
| CacheManager.ReparsedStep | src/main/java/cn/wx1998/kmerit/jetbrains/plugins/quickmybatis/cache/MyBatisCacheManagerDefault.java:230 | a stored path is handed to the parsers exactly when its digest changed |
| CacheManager.BookkeptStart | src/main/java/cn/wx1998/kmerit/jetbrains/plugins/quickmybatis/cache/MyBatisCacheManagerDefault.java:203-206 | the scan starts with no count, the whole listing as working list and nothing re-parsed |
| CacheManager.Ladder | src/main/java/cn/wx1998/kmerit/jetbrains/plugins/quickmybatis/cache/MyBatisCacheManagerDefault.java:898-941 | no notification exactly when none of the five checks fires; otherwise the first check that fires, in order, with the refresh range its button runs |
| CacheManager.LadderQuiet | src/main/java/cn/wx1998/kmerit/jetbrains/plugins/quickmybatis/cache/MyBatisCacheManagerDefault.java:898-906 | the checks stay quiet exactly when the Java, XML, digest and method-call tables all hold something |
| CacheManager.MissingDigestsNeedBothTables | src/main/java/cn/wx1998/kmerit/jetbrains/plugins/quickmybatis/cache/MyBatisCacheManagerDefault.java:904 | the fourth check fires only with both element tables non-empty and the digest table empty |
| CacheManager.StatementRows | src/main/java/cn/wx1998/kmerit/jetbrains/plugins/quickmybatis/cache/MyBatisCacheManagerDefault.java:806-813 | one row per statement tag of an id's list, in list order |
| CacheManager.SyncXmlRows | src/main/java/cn/wx1998/kmerit/jetbrains/plugins/quickmybatis/cache/MyBatisCacheManagerDefault.java:787-819 | a null result gives no rows; otherwise the first row is the root tag's under the bare namespace with an empty database id, and the rest is, for each id of the statement map visited once in some order, one row per tag of its list in list order, under `namespace + "." + id` with its `databaseId` or "" |
| CacheManager.AllIdsRowsMembers | src/main/java/cn/wx1998/kmerit/jetbrains/plugins/quickmybatis/cache/MyBatisCacheManagerDefault.java:801-813 | when every statement id is visited, the rows produced are exactly the rows of all the statement tags, each under its own id |
| CacheManager.Present | src/main/java/cn/wx1998/kmerit/jetbrains/plugins/quickmybatis/cache/MyBatisCacheManagerDefault.java:240-245 | the new files the second loop re-parses are exactly the listed paths the file system holds, no more than were listed |
| CacheManager.MyBatisCacheManagerDefault.constructor | src/main/java/cn/wx1998/kmerit/jetbrains/plugins/quickmybatis/cache/MyBatisCacheManagerDefault.java:91 | a new manager starts at cache version 1 with notifications allowed |
| CacheManager.MyBatisCacheManagerDefault.IncrementCacheVersion | src/main/java/cn/wx1998/kmerit/jetbrains/plugins/quickmybatis/cache/MyBatisCacheManagerDefault.java:764-766 | the version grows by one, so a reader holding the old version is out of date |
| CacheManager.MyBatisCacheManagerDefault.GetCurrentCacheVersion | src/main/java/cn/wx1998/kmerit/jetbrains/plugins/quickmybatis/cache/MyBatisCacheManagerDefault.java:772-782 | the version returned is up to date |
| CacheManager.MyBatisCacheManagerDefault.ClearFileCache | src/main/java/cn/wx1998/kmerit/jetbrains/plugins/quickmybatis/cache/MyBatisCacheManagerDefault.java:372-379 | a ".java" path clears its Java rows, a ".xml" path its XML rows, any other path nothing; digests are kept |
| CacheManager.MyBatisCacheManagerDefault.ClearCache | src/main/java/cn/wx1998/kmerit/jetbrains/plugins/quickmybatis/cache/MyBatisCacheManagerDefault.java:382-385 | each refresh range empties its tables (method-call rows only for the method-call range; everything, digests included, for all) and keeps the others |
| CacheManager.MyBatisCacheManagerDefault.ClearOneMore | src/main/java/cn/wx1998/kmerit/jetbrains/plugins/quickmybatis/cache/MyBatisCacheManagerDefault.java:218 | one more `clearFileCache` grows the set of cleared paths by that path |
| CacheManager.MyBatisCacheManagerDefault.ScanStoredPath | src/main/java/cn/wx1998/kmerit/jetbrains/plugins/quickmybatis/cache/MyBatisCacheManagerDefault.java:210-232 | one stored path: a gone file is cleared, a changed one is cleared and gets its fresh digest, an unchanged one is left alone |
| CacheManager.MyBatisCacheManagerDefault.VisitStored | src/main/java/cn/wx1998/kmerit/jetbrains/plugins/quickmybatis/cache/MyBatisCacheManagerDefault.java:209-233 | one turn of the first loop keeps the store and the bookkeeping in step with the visited paths |
| CacheManager.MyBatisCacheManagerDefault.VisitAllStored | src/main/java/cn/wx1998/kmerit/jetbrains/plugins/quickmybatis/cache/MyBatisCacheManagerDefault.java:209-233 | after the first loop every stored path has been visited and both the store and the bookkeeping describe all of them |
| CacheManager.MyBatisCacheManagerDefault.ScanStoredDigests | src/main/java/cn/wx1998/kmerit/jetbrains/plugins/quickmybatis/cache/MyBatisCacheManagerDefault.java:208-234 | the first loop clears exactly the gone and changed stored files, replaces exactly the changed digests, counts them and hands the changed ones to the parsers |
| CacheManager.MyBatisCacheManagerDefault.ScanNewPath | src/main/java/cn/wx1998/kmerit/jetbrains/plugins/quickmybatis/cache/MyBatisCacheManagerDefault.java:237-245 | one unlisted path is cleared, and its digest stored when the file system holds it |
| CacheManager.MyBatisCacheManagerDefault.ScanNewFiles | src/main/java/cn/wx1998/kmerit/jetbrains/plugins/quickmybatis/cache/MyBatisCacheManagerDefault.java:236-246 | every path of the working list is cleared; the ones the file system holds get their digest, are re-parsed in list order and counted |
| CacheManager.MyBatisCacheManagerDefault.ScanForFileChanges | src/main/java/cn/wx1998/kmerit/jetbrains/plugins/quickmybatis/cache/MyBatisCacheManagerDefault.java:201-249 | counts the gone and changed stored files; the new paths are the listing minus the stored ones (as a multiset, and exactly in order when the listing has no duplicates); both tables lose exactly the touched and new paths' rows; digests are refreshed and the existing new ones added |
| CacheManager.MyBatisCacheManagerDefault.GetStatementIdForMethod | src/main/java/cn/wx1998/kmerit/jetbrains/plugins/quickmybatis/cache/MyBatisCacheManagerDefault.java:335-341 | `className.methodName` exactly when some XML row is stored under it, else null |
| CacheManager.MyBatisCacheManagerDefault.GetMethodForStatementId | src/main/java/cn/wx1998/kmerit/jetbrains/plugins/quickmybatis/cache/MyBatisCacheManagerDefault.java:345-353 | a name exactly when some "method" row is stored under the statement id, and then the text after the id's last '.' |
| CacheManager.MyBatisCacheManagerDefault.CheckForCacheInvalidationAndNotify | src/main/java/cn/wx1998/kmerit/jetbrains/plugins/quickmybatis/cache/MyBatisCacheManagerDefault.java:890-952 | a notification is shown exactly when a check fires and none was shown before; it carries the first firing check's key and refresh range and turns the flag off; otherwise nothing changes |
| CacheManager.MyBatisCacheManagerDefault.PerformFullCacheRefresh | src/main/java/cn/wx1998/kmerit/jetbrains/plugins/quickmybatis/cache/MyBatisCacheManagerDefault.java:452-505 | the range is cleared as `clearCache` clears it, the version goes up by one, the flag is back on when the refresh ends, and the completion notification is the repeated-refresh one exactly when `numberOfRefreshes` is positive |
| CacheManager.WarnAgainAfterRefresh | src/main/java/cn/wx1998/kmerit/jetbrains/plugins/quickmybatis/cache/MyBatisCacheManagerDefault.java:452-487 | after a check and a refresh, a further check shows its notification exactly when one of its checks fires, since the refresh turns the flag back on |
| BaseDao.UnderlineToCamel | src/main/java/cn/wx1998/kmerit/intellij/plugins/quickmybatis/cache/db/BaseDao.java:58-73 | null and "" come back unchanged; any other name comes back in its camelCase form |
| BaseDao.CamelDropsUnderscores | src/main/java/cn/wx1998/kmerit/intellij/plugins/quickmybatis/cache/db/BaseDao.java:64-71 | the camelCase form holds no underscore and is shorter than the name by exactly its number of underscores |
| BaseDao.CamelWithoutUnderscore | src/main/java/cn/wx1998/kmerit/intellij/plugins/quickmybatis/cache/db/BaseDao.java:64-71 | a name without underscores comes back unchanged |
| BaseDao.CamelIdempotent | src/main/java/cn/wx1998/kmerit/intellij/plugins/quickmybatis/cache/db/BaseDao.java:58-73 | converting a converted name changes nothing |
| BaseDao.CamelConcat | src/main/java/cn/wx1998/kmerit/intellij/plugins/quickmybatis/cache/db/BaseDao.java:63-71 | the conversion of a concatenation is the conversion of each piece, the second starting from the pending upper-case flag the first leaves |
| BaseDao.UnderscoresThenChar | src/main/java/cn/wx1998/kmerit/intellij/plugins/quickmybatis/cache/db/BaseDao.java:65-69 | a run of underscores followed by a character yields that character upper-cased, and the rest is converted afresh |
| BaseDao.NoCamelOfUnderscores | src/main/java/cn/wx1998/kmerit/intellij/plugins/quickmybatis/cache/db/BaseDao.java:65-66 | a name made only of underscores converts to the empty string |
| BaseDao.CamelExamples | src/main/java/cn/wx1998/kmerit/intellij/plugins/quickmybatis/cache/db/BaseDao.java:35-36 | "sql_id" converts to "sqlId" |
| BaseDao.ColumnName | src/main/java/cn/wx1998/kmerit/intellij/plugins/quickmybatis/cache/db/BaseDao.java:30-33 | the column label is used unless it is null or empty, and then the column name |
| BaseDao.FirstMatchFrom | src/main/java/cn/wx1998/kmerit/intellij/plugins/quickmybatis/cache/db/BaseDao.java:39-48 | the index found is the first property whose name equals the camelCase column name ignoring case; when none does the result is "not found" |
| BaseDao.MapColumnsToProperties | src/main/java/cn/wx1998/kmerit/intellij/plugins/quickmybatis/cache/db/BaseDao.java:23-51 | a fresh array one longer than the column count, slot 0 "not found", and every column's slot holds the index of the first property matching its label or name |
| PluginSettings.FilterEquals | src/main/java/cn/wx1998/kmerit/jetbrains/plugins/quickmybatis/setting/MyPluginConfigurable.java:36-45 | arrays of different lengths differ; arrays of the same length are equal exactly when they hold the same filters |
| PluginSettings.SetOfElements | src/main/java/cn/wx1998/kmerit/jetbrains/plugins/quickmybatis/setting/MyPluginConfigurable.java:40-43 | the set built with `Collections.addAll` holds exactly the array's filters |
| PluginSettings.FilterEqualsReflexiveSymmetric | src/main/java/cn/wx1998/kmerit/intellij/plugins/quickmybatis/setting/MyPluginConfigurable.java:134-143 | every filter array equals itself, and the comparison does not depend on argument order |
| PluginSettings.FilterEqualsPermutation | src/main/java/cn/wx1998/kmerit/intellij/plugins/quickmybatis/setting/MyPluginConfigurable.java:134-143 | reordering an array does not change the comparison |
| PluginSettings.FilterEqualsIgnoresMultiplicity | src/main/java/cn/wx1998/kmerit/intellij/plugins/quickmybatis/setting/MyPluginConfigurable.java:134-143 | how often a filter occurs is not compared: [a, a, b] equals [a, b, b] although their multisets differ |
| PluginSettings.Initialised | src/main/java/cn/wx1998/kmerit/jetbrains/plugins/quickmybatis/setting/MyPluginSettings.java:32-41 | the filters after `getInstance` are never empty: stored filters are kept, an empty array is replaced by the three default filters |
| PluginSettings.InitialisedIdempotent | src/main/java/cn/wx1998/kmerit/jetbrains/plugins/quickmybatis/setting/MyPluginSettings.java:20-43 | a second `getInstance` installs nothing more |
| PluginSettings.Settings.constructor | src/main/java/cn/wx1998/kmerit/jetbrains/plugins/quickmybatis/setting/MyPluginSettings.java:18 | a new service holds no filters |
| PluginSettings.Settings.SetClassFilters | src/main/java/cn/wx1998/kmerit/jetbrains/plugins/quickmybatis/setting/MyPluginSettings.java:45-51 | the getter returns exactly the filters set |
| PluginSettings.Settings.LoadState | src/main/java/cn/wx1998/kmerit/jetbrains/plugins/quickmybatis/setting/MyPluginSettings.java:59-61 | the loaded bean's filters become the service's filters |
| PluginSettings.GetInstance | src/main/java/cn/wx1998/kmerit/jetbrains/plugins/quickmybatis/setting/MyPluginSettings.java:20-43 | a missing service is replaced by a fresh one with the default filters; an existing one gets the defaults only when it holds no filters |
| PluginSettings.GetInstanceLegacy | src/main/java/cn/wx1998/kmerit/intellij/plugins/quickmybatis/setting/MyPluginSettings.java:28-41 | the existing service gets the defaults only when it holds no filters |
| PluginSettings.IsModified | src/main/java/cn/wx1998/kmerit/jetbrains/plugins/quickmybatis/setting/MyPluginConfigurable.java:86-90 | the page is modified exactly when the editor's filters differ, as `filterEquals` compares, from the stored ones after `getInstance` |
| PluginSettings.Apply | src/main/java/cn/wx1998/kmerit/jetbrains/plugins/quickmybatis/setting/MyPluginConfigurable.java:96-99 | the editor's filters become the stored filters |
| PluginSettings.Reset | src/main/java/cn/wx1998/kmerit/jetbrains/plugins/quickmybatis/setting/MyPluginConfigurable.java:102-105 | the editor is loaded with the stored filters after `getInstance` |
| PluginSettings.ModifiedAfterApply | src/main/java/cn/wx1998/kmerit/intellij/plugins/quickmybatis/setting/MyPluginConfigurable.java:111-126 | after `apply` the page reads unmodified exactly when the applied list was not empty, since an empty list is replaced by the defaults on the next read |
| Notifications.FlagOf | src/main/java/cn/wx1998/kmerit/jetbrains/plugins/quickmybatis/util/NotificationUtil.java:142 | `getOrDefault(key, false)`: an absent key reads false, a present one its stored flag |
| Notifications.NotificationSettings.constructor | src/main/java/cn/wx1998/kmerit/jetbrains/plugins/quickmybatis/util/NotificationUtil.java:106-113 | a new service flags no key |
| Notifications.NotificationSettings.IsDoNotShowAgain | src/main/java/cn/wx1998/kmerit/jetbrains/plugins/quickmybatis/util/NotificationUtil.java:140-143 | a key reads true exactly when it is stored with the flag true |
| Notifications.NotificationSettings.SetDoNotShowAgain | src/main/java/cn/wx1998/kmerit/jetbrains/plugins/quickmybatis/util/NotificationUtil.java:148-150 | the key now reads the given flag and every other key reads as before |
| Notifications.NotificationSettings.ResetDoNotShowAgain | src/main/java/cn/wx1998/kmerit/jetbrains/plugins/quickmybatis/util/NotificationUtil.java:155-157 | the key reads false again and every other key reads as before |
| Notifications.NotificationSettings.ResetAllDoNotShowAgain | src/main/java/cn/wx1998/kmerit/jetbrains/plugins/quickmybatis/util/NotificationUtil.java:162-164 | every key reads false |
| Notifications.NotificationSettings.LoadState | src/main/java/cn/wx1998/kmerit/jetbrains/plugins/quickmybatis/util/NotificationUtil.java:129-135 | the loaded map replaces the current one, and a null map becomes an empty one |
| Notifications.NotificationSettings.GetState | src/main/java/cn/wx1998/kmerit/jetbrains/plugins/quickmybatis/util/NotificationUtil.java:121-123 | the state returned holds the current map |
| Notifications.ShowCustomNotification | src/main/java/cn/wx1998/kmerit/jetbrains/plugins/quickmybatis/util/NotificationUtil.java:39-90 | nothing is shown exactly when the "do not show again" gate is enabled and the key is flagged; otherwise the notification carries the given title, content and button texts |
| Notifications.RightButtonPressed | src/main/java/cn/wx1998/kmerit/jetbrains/plugins/quickmybatis/util/NotificationUtil.java:74-82 | with the gate enabled the right button flags the key before running the action; without it the flags are untouched |
| CacheValidity.ValidIn | src/main/java/cn/wx1998/kmerit/intellij/plugins/quickmybatis/cache/MyBatisCacheManagerDefault.java:358-361 | a path never marked is valid; a marked path reads its mark |
| CacheValidity.InvalidPaths | src/main/java/cn/wx1998/kmerit/intellij/plugins/quickmybatis/cache/MyBatisCacheManagerDefault.java:369 | exactly the paths marked invalid |
| CacheValidity.RefreshedOver | src/main/java/cn/wx1998/kmerit/intellij/plugins/quickmybatis/cache/MyBatisCacheManagerDefault.java:371-381 | the refresh marks no new path |
| CacheValidity.MarkedInvalid | src/main/java/cn/wx1998/kmerit/intellij/plugins/quickmybatis/cache/DefaultMyBatisCacheManager.java:340-345 | after marking a list of paths, a path is valid exactly when it was valid and is not in the list |
| CacheValidity.InvalidatedPaths | src/main/java/cn/wx1998/kmerit/intellij/plugins/quickmybatis/cache/DefaultMyBatisCacheManager.java:113-141 | every qualifying event's path is invalidated, and only those, at most one per event |
| CacheValidity.ValidityStatistics.constructor | src/main/java/cn/wx1998/kmerit/intellij/plugins/quickmybatis/cache/MyBatisCacheManagerDefault.java:736-740 | new statistics count nothing |
| CacheValidity.ValidityStatistics.HitRate | src/main/java/cn/wx1998/kmerit/intellij/plugins/quickmybatis/cache/MyBatisCacheManagerDefault.java:764-769 | 0 before any request, otherwise hits over hits plus misses, a rate between 0 and 1 |
| CacheValidity.ValidityStatistics.RecordHit | src/main/java/cn/wx1998/kmerit/intellij/plugins/quickmybatis/cache/MyBatisCacheManagerDefault.java:772-776 | one more hit, the other counters unchanged |
| CacheValidity.ValidityStatistics.RecordMiss | src/main/java/cn/wx1998/kmerit/intellij/plugins/quickmybatis/cache/MyBatisCacheManagerDefault.java:779-783 | one more miss, the other counters unchanged |
| CacheValidity.ValidityStatistics.RecordInvalidation | src/main/java/cn/wx1998/kmerit/intellij/plugins/quickmybatis/cache/MyBatisCacheManagerDefault.java:786-790 | one more invalidation, the other counters unchanged |
| CacheValidity.ValidityStatistics.Reset | src/main/java/cn/wx1998/kmerit/intellij/plugins/quickmybatis/cache/MyBatisCacheManagerDefault.java:793-799 | every counter is zero and the hit rate reads 0 |
| CacheValidity.ValidityManager.constructor | src/main/java/cn/wx1998/kmerit/intellij/plugins/quickmybatis/cache/MyBatisCacheManagerDefault.java:69-79 | nothing marked, zero counters, version 1 and a five-minute scan interval |
| CacheValidity.ValidityManager.ClearClassCache | src/main/java/cn/wx1998/kmerit/intellij/plugins/quickmybatis/cache/MyBatisCacheManagerDefault.java:308-314 | the path is marked invalid and exactly one invalidation is counted; nothing else changes |
| CacheValidity.ValidityManager.ClearXmlFileCache | src/main/java/cn/wx1998/kmerit/intellij/plugins/quickmybatis/cache/MyBatisCacheManagerDefault.java:317-323 | the path is marked invalid and exactly one invalidation is counted; nothing else changes |
| CacheValidity.ValidityManager.ClearFileCache | src/main/java/cn/wx1998/kmerit/intellij/plugins/quickmybatis/cache/MyBatisCacheManagerDefault.java:326-333 | a ".java" or ".xml" path is marked invalid and counted; any other path changes nothing |
| CacheValidity.ValidityManager.ClearAllCache | src/main/java/cn/wx1998/kmerit/intellij/plugins/quickmybatis/cache/MyBatisCacheManagerDefault.java:336-341 | every path reads valid again and the three counters are zero |
| CacheValidity.ValidityManager.InvalidateFileCache | src/main/java/cn/wx1998/kmerit/intellij/plugins/quickmybatis/cache/MyBatisCacheManagerDefault.java:350-355 | the path is marked invalid and counted as one miss, not as an invalidation |
| CacheValidity.ValidityManager.RefreshInvalidatedCaches | src/main/java/cn/wx1998/kmerit/intellij/plugins/quickmybatis/cache/MyBatisCacheManagerDefault.java:364-385 | the refresh ends normally exactly when no invalid path with a file fails to re-parse, having then visited every invalid path; otherwise it ends with the exception of a failing path it had not yet marked. Of the visited paths, those with a file become valid and those without one stay invalid and, when Java or XML, count one more invalidation; every other path is untouched |
| CacheValidity.ValidityManager.VisitInvalid | src/main/java/cn/wx1998/kmerit/intellij/plugins/quickmybatis/cache/MyBatisCacheManagerDefault.java:371-381 | one invalid path: revalidated when its file exists, cleared again otherwise |
| CacheValidity.ValidityManager.IncrementCacheVersion | src/main/java/cn/wx1998/kmerit/intellij/plugins/quickmybatis/cache/MyBatisCacheManagerDefault.java:629-631 | the version grows by one, so a reader holding the old version is out of date |
| CacheValidity.ValidityManager.SetScanInterval | src/main/java/cn/wx1998/kmerit/intellij/plugins/quickmybatis/cache/MyBatisCacheManagerDefault.java:408-414 | the new interval is stored; marks and version are kept |
| CacheValidity.ValidityManager.OnFileEvents | src/main/java/cn/wx1998/kmerit/intellij/plugins/quickmybatis/cache/DefaultMyBatisCacheManager.java:107-141 | each qualifying event marks its file invalid and counts one miss, in event order; other events change nothing |
| CacheValidity.EventStep | src/main/java/cn/wx1998/kmerit/intellij/plugins/quickmybatis/cache/DefaultMyBatisCacheManager.java:114-139 | one more event adds its path to the invalidated ones exactly when it qualifies |
| CacheValidity.MarkOneMore | src/main/java/cn/wx1998/kmerit/intellij/plugins/quickmybatis/cache/DefaultMyBatisCacheManager.java:342 | marking one more path invalid is one more map update |
| CacheValidity.RefreshStep | src/main/java/cn/wx1998/kmerit/intellij/plugins/quickmybatis/cache/MyBatisCacheManagerDefault.java:371-381 | one more invalid path: with a file it turns valid; without one it stays invalid and, for a Java or XML path, adds one invalidation |
| CacheValidity.RefreshOnlyRevalidates | src/main/java/cn/wx1998/kmerit/intellij/plugins/quickmybatis/cache/MyBatisCacheManagerDefault.java:364-385 | a refresh, complete or cut short, never invalidates a valid path, makes every visited path with a file valid and leaves every other path as it was; a complete one makes every path with a file valid |

## Left out

- IntelliJ PSI, VFS and DOM. Tags, Java classes and expressions are datatypes. An element is identified by its position (child indices, or class/member numbers) in place of reference identity. The project file index's "excluded" and "in source content" verdicts are fields of the modelled file.
- Document line numbers. The older tree's `createXmlElementInfo`, `createJavaElementInfo`, `generateXPathForPsiElement`, `getPsiElementSegment` and `findTagByLineNumber` read them from the IDE document. The model takes the line lookup's result as a parameter.
- `TextRange.contains` and the PSI offsets of a tag are parameters of the locators.
- The older `JavaService.isSqlSessionMethod(PsiMethodCallExpression)` uses regular expressions and PSI resolution. Its outcome is a boolean input of `ProcessMethodCall`. Of `processClass`, `processMethod` and `processField` only the SQL-id computation is modelled.
- `ReadAction`, `DumbService`, the scheduler, the file listener's message bus, `synchronized` blocks, `AtomicLong` and the executor, thread pool and timeouts of `calculateFileDigestsParallel`: every operation is one sequential step. The digests the pool computes in time are the `cached`/`completed` parameters.
- Logging and UI. That covers line markers, tool windows, settings forms, notification rendering and the callbacks a notification button runs. `RightButtonPressed` models only the flag the right button sets.
- The database layer (`DataBaseManager`, the DAOs and SQL) is not part of this model. The newer store's tables are sequences of rows with insert, delete-by-path and delete-by-SQL-id. The DAO delegations `getSqlIdsByJavaFile`, `getSqlIdsByXmlFile`, `getFileDigest`, `getAllFileDigest`, `getAllSqlIdByFilePath` and `getAllFilePathsBySqlIdList` are plain reads of those tables and are not modelled separately.
- The older managers' `cacheConfig` collaborator, whose clear methods do not exist on the shown `MyBatisCacheConfig`. Only the validity map, statistics and version are modelled. The re-parse inside `refreshInvalidatedCaches` is not performed: which paths exist and which re-parses throw are parameters of the method. The order in which it visits the invalid paths is the map's, which Java leaves unspecified, so the model picks any order.
- Re-parsing and progress in `performFullCacheRefresh`: `processAllMyBatisFiles`, `processAllJavaFiles` and `processAllJavaMyBatisMethodCall` are not performed, so the model states the tables as the clear leaves them. The background task runs at once, so the window in which the flag is off while the task runs is not modelled. The completion notification's text, key and buttons are left out; only which of its two texts is chosen is returned.
- Re-parsing in `scanForFileChanges`: the paths handed to the parsers are returned, not parsed. The Java half of `syncToCacheManager` is not modelled. `getLatestPsiFile` and its asynchronous variant are not modelled either.
- Singletons: `getInstance` and the `INSTANCES`/`INSTANCE_KEY` maps. The static `notifyFlag` and the parser's static memo map are instance fields.
- `validateStatementTag` only logs.
- The newer parser's `validateMapperStructure` is never called from `parse`, so it is not modelled there.
- Floating point: `getHitRate` is a rational `Ratio(num, den)` instead of a `double`. The ratio is left unreduced.
- Width of Java `long` and `int` counters: statistics counters, the cache version and the scan interval are unbounded integers. Overflow after 2^63 increments is not modelled.
- SHA-256 and `MessageDigest` are a function parameter. `Arrays.hashCode`, `Objects.hash` and `String.hashCode` are kept only where a contract needs them.
- `ClassFilter.equals` is datatype equality on (pattern, enabled, include). Null entries in a filter array are not modelled. `loadState` copies the stored filters, so the aliasing between the stored bean and the service is not modelled. Likewise the notification settings' `loadState` and `getState` copy the do-not-show-again map where Java shares it by reference, so a change made through a state object after `loadState` or `getState` does not reach the service here.
- Text: characters are Dafny `char`s, not UTF-16 code units. Case folding (`equalsIgnoreCase`, `toLowerCase`, `toUpperCase`) is ASCII-only. `String.lines()` splits on '\n' only, so CRLF files are not modelled.
- Build script: the Gradle dependency of `publishPlugin` on `patchChangelog` (build.gradle.kts:161-163) computes nothing and is not modelled. Gradle providers are plain strings. The changelog plugin's `renderItem`, `markdownToHTML`, the signing and publishing environment variables and the UI-test JVM arguments are not modelled.
- A `null` column name from JDBC and a `null` qualified name of a top-level Java class are not modelled. Of the element-info records' fields only the older records' `xpath` may be `null` (an `Option`), and their `equals`, `hashCode` and `compareTo` handle that case. The other fields are never `null` here, the records' no-argument constructors are not modelled, and neither are the reference and class checks of `equals`.
- `generateXPathForTag` followed by `findTagByXPath` is not a round trip. The generated path starts with the root's segment, but the search starts among the root's children, and the id escaping is not undone. `XmlTagLocator.GeneratedPathMissesRoot` states this. No round trip is claimed.
- XmlTagLocator.FindChildByIndex states the fallback only for at most `Integer.MAX_VALUE` candidates, the most a Java list can hold. For more, the wrapped index of `Integer.MIN_VALUE - 1` could select a candidate, and no Java run can reach that case.
- `TimeFormat.ParseDuration` is this model's own reader, the partner of `TimeFormat.Format`. The plugin has no parser.
- CacheManager.MyBatisCacheManagerDefault.ScanForFileChanges: the list of new paths is pinned down exactly only when the source-root listing has no duplicates; otherwise it is stated as a multiset. The stored paths are visited in the map's iteration order, which Java leaves unspecified, so the contract states the changed files handed to the parsers as a set, not as a list.
- IntellijInfo.XmlElementInfo.CompareTo and IntellijInfo.JavaElementInfo.CompareTo keep the order as written, which is not transitive (see Findings). Nothing in this model sorts by it. The transitive correction is proved in `InfoOrder`.
- JavaParser.ScanClasses, JavaParser.ParseResult.InitializeMaps and JavaParser.ParseResult.constructor fill the maps with the calls and fields whose key folds without throwing. Where a key's fold throws, the source leaves `initializeMaps` part-way with the exception. That exception is stated by `JavaParser.Parse` and `JavaParser.ParseChecked`, which report it before any map is filled, so the partly filled maps are not modelled.

## Findings

| source | as written | input that shows it | evidently intended | confidence | as-written member | corrected member |
|---|---|---|---|---|---|---|
| build.gradle.kts:128-129 | the release channel is the text after the first '-' up to the next '.', searched across the whole version string | version "1.0.0+build-7" (Semantic Versioning build metadata, no pre-release) is published to channel "7" | only a pre-release label names a channel (the comment cites Semantic Versioning), so "1.0.0+build-7" goes to "default" | medium, not executed | BuildScript.ChannelsBuildMetadata | BuildScript.ChannelsSemVer |
| src/main/java/cn/wx1998/kmerit/intellij/plugins/quickmybatis/cache/info/XmlElementInfo.java:108-120 | `compareTo` skips the xpath whenever either side's xpath is null (the older `JavaElementInfo.java:104-116` does the same) | a = (m.xml, "b", line 1), b = (m.xml, null, line 2), c = (m.xml, "a", line 3): a < b and b < c, but a > c | a total order as `Comparable` requires, for example null xpaths first | high, not executed | InfoOrder.CompareLineCycle | InfoOrder.CompareLineNullsFirstTransitive |
| src/main/java/cn/wx1998/kmerit/intellij/plugins/quickmybatis/parser/JavaParserDefault.java:58 | `parse` (and `parseEverything`, line 73) calls `file.getVirtualFile().getPath()` before `isValidJavaFile`, which itself rejects a file without a virtual file | an in-memory `PsiJavaFile` whose `getVirtualFile()` is null throws NullPointerException | return null, as the validity check at line 91 intends | high, not executed | JavaParser.Parse | JavaParser.ParseChecked |
| src/main/java/cn/wx1998/kmerit/jetbrains/plugins/quickmybatis/services/JavaService.java:166-167 | the comment of `flattenBinaryExpression` promises that `"namespace" + ("." + "selectUser")` splits into "namespace", "." and "selectUser", but the parenthesised operand is not a binary expression, so it goes to `parseExpression`, which has no branch for it and returns "" | `"namespace" + ("." + "selectUser")` folds to "namespace" | the operands joined in source order whatever the parentheses, giving "namespace.selectUser" | medium, not executed | JavaExpr.ParenthesisedOperandDropped | JavaExpr.EvalInOrder |
