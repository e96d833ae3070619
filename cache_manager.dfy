/**
 * The newer tree's cache manager, `MyBatisCacheManagerDefault`: clearing a file's cache by
 * its suffix, the periodic scan that compares stored digests with the files, the version
 * counter, the two SQL-id lookups, the rows produced from a parsed mapper file, and the
 * ladder that decides whether to suggest a refresh.
 *
 * The file system is a parameter: a map from path to `FileEntry`, a path it does not hold
 * being missing. Re-parsing a file is recorded (the path is handed to the parsers), not performed.
 */
module CacheManager {
  import opened Wrappers
  import opened JavaText
  import opened ProjectFiles
  import opened CacheStore

  const JavaFileSuffix: String := ".java"
  const XmlFileSuffix: String := ".xml"

  /** The name the notification keys start with: the manager's simple class name. */
  const ManagerName: String := "MyBatisCacheManagerDefault"

  // ---------------------------------------------------------------- clearing by suffix

  /** A row whose path is one of `paths` and ends with `suffix`. */
  predicate Hit(path: Option<String>, suffix: String, paths: set<String>)
  {
    path.Some? && path.value in paths && EndsWith(path.value, suffix)
  }

  /** The rows that survive clearing `paths` whose names end with `suffix`, in table order. */
  function Cleared<R>(rows: seq<R>, pathOf: R -> Option<String>, suffix: String, paths: set<String>): seq<R>
  {
    if rows == [] then []
    else Cleared(rows[..|rows| - 1], pathOf, suffix, paths) +
           (if Hit(pathOf(rows[|rows| - 1]), suffix, paths) then [] else [rows[|rows| - 1]])
  }

  /** Clearing keeps exactly the rows not hit, and keeps their order. */
  lemma {:induction false} ClearedMembers<R>(rows: seq<R>, pathOf: R -> Option<String>, suffix: String, paths: set<String>, x: R)
    ensures x in Cleared(rows, pathOf, suffix, paths) <==> x in rows && !Hit(pathOf(x), suffix, paths)
  {
    if rows != [] {
      ClearedMembers(rows[..|rows| - 1], pathOf, suffix, paths, x);
      assert rows == rows[..|rows| - 1] + [rows[|rows| - 1]];
    }
  }

  /** Clearing one path with the suffix is deleting that path's rows. */
  lemma {:induction false} ClearedOne<R(!new)>(rows: seq<R>, pathOf: R -> Option<String>, suffix: String, p: String)
    ensures EndsWith(p, suffix) ==> Cleared(rows, pathOf, suffix, {p}) == WithoutPath(rows, pathOf, p)
    ensures !EndsWith(p, suffix) ==> Cleared(rows, pathOf, suffix, {p}) == rows
  {
    if rows != [] {
      ClearedOne(rows[..|rows| - 1], pathOf, suffix, p);
      assert rows == rows[..|rows| - 1] + [rows[|rows| - 1]];
    }
  }

  /** Clearing one set of paths and then another is clearing both at once. */
  lemma {:induction false} ClearedTwice<R>(rows: seq<R>, pathOf: R -> Option<String>, suffix: String, a: set<String>, b: set<String>)
    ensures Cleared(Cleared(rows, pathOf, suffix, a), pathOf, suffix, b) == Cleared(rows, pathOf, suffix, a + b)
  {
    if rows != [] {
      var n := |rows| - 1;
      ClearedTwice(rows[..n], pathOf, suffix, a, b);
      var once := Cleared(rows, pathOf, suffix, a);
      if Hit(pathOf(rows[n]), suffix, a) {
        assert once == Cleared(rows[..n], pathOf, suffix, a);
      } else {
        assert once[..|once| - 1] == Cleared(rows[..n], pathOf, suffix, a);
      }
    }
  }

  /** Clearing nothing keeps the table. */
  lemma {:induction false} ClearedNothing<R>(rows: seq<R>, pathOf: R -> Option<String>, suffix: String)
    ensures Cleared(rows, pathOf, suffix, {}) == rows
  {
    if rows != [] {
      ClearedNothing(rows[..|rows| - 1], pathOf, suffix);
      assert rows == rows[..|rows| - 1] + [rows[|rows| - 1]];
    }
  }

  /** No path ends with both ".java" and ".xml", so a clear touches at most one table. */
  lemma SuffixesExclusive(p: String)
    ensures !(EndsWith(p, JavaFileSuffix) && EndsWith(p, XmlFileSuffix))
  {
    if EndsWith(p, JavaFileSuffix) {
      assert p[|p| - 1] == 'a';
    }
  }

  // ---------------------------------------------------------------- the scan

  predicate Exists(fs: map<String, FileEntry>, p: String) { p in fs && !fs[p].Missing? }

  function EntryAt(fs: map<String, FileEntry>, p: String): FileEntry
  {
    if p in fs then fs[p] else Missing
  }

  /** What the scan finds for one stored digest. */
  datatype Verdict = Gone | Changed(newDigest: String) | Unchanged

  function Examine(fs: map<String, FileEntry>, algorithmAvailable: bool, sha256: seq<JByte> -> seq<JByte>,
                   p: String, oldDigest: String): (v: Verdict)
    ensures v == Gone <==> !Exists(fs, p)
    ensures v.Changed? ==> v.newDigest == FileDigest(fs[p], algorithmAvailable, sha256) && v.newDigest != oldDigest
    ensures v == Unchanged <==> Exists(fs, p) && FileDigest(fs[p], algorithmAvailable, sha256) == oldDigest
  {
    if !Exists(fs, p) then Gone
    else
      var d := FileDigest(fs[p], algorithmAvailable, sha256);
      if d != oldDigest then Changed(d) else Unchanged
  }

  /** `List.remove(Object)`: drops the first occurrence only. */
  function RemoveFirst(xs: seq<String>, p: String): (r: seq<String>)
    ensures p !in xs ==> r == xs
    ensures p in xs ==> |r| == |xs| - 1
  {
    if xs == [] then []
    else if xs[0] == p then xs[1..]
    else [xs[0]] + RemoveFirst(xs[1..], p)
  }

  /** The paths of `xs` that are not in `s`, in order. */
  function Without(xs: seq<String>, s: set<String>): (r: seq<String>)
    ensures forall x :: x in r <==> x in xs && x !in s
  {
    if xs == [] then []
    else (if xs[0] in s then [] else [xs[0]]) + Without(xs[1..], s)
  }

  predicate Distinct(xs: seq<String>)
  {
    forall i, j :: 0 <= i < j < |xs| ==> xs[i] != xs[j]
  }

  /** On a list without duplicates, removing the first occurrence removes them all. */
  lemma {:induction false} RemoveFirstDistinct(xs: seq<String>, p: String)
    requires Distinct(xs)
    ensures RemoveFirst(xs, p) == Without(xs, {p})
    decreases |xs|
  {
    if xs != [] {
      var t := xs[1..];
      assert Distinct(t);
      if xs[0] == p {
        forall j | 0 <= j < |t| ensures t[j] != p {
          assert t[j] == xs[j + 1];
        }
        WithoutAbsent(t, {p});
      } else {
        RemoveFirstDistinct(t, p);
      }
    }
  }

  lemma {:induction false} WithoutAbsent(xs: seq<String>, s: set<String>)
    requires forall x :: x in xs ==> x !in s
    ensures Without(xs, s) == xs
    decreases |xs|
  {
    if xs != [] {
      assert xs[0] in xs;
      assert forall x :: x in xs[1..] ==> x in xs;
      WithoutAbsent(xs[1..], s);
    }
  }

  lemma {:induction false} WithoutTwice(xs: seq<String>, a: set<String>, b: set<String>)
    ensures Without(Without(xs, a), b) == Without(xs, a + b)
    decreases |xs|
  {
    if xs != [] {
      WithoutTwice(xs[1..], a, b);
      var once := Without(xs, a);
      if xs[0] in a {
        assert once == Without(xs[1..], a);
      } else {
        assert once == [xs[0]] + Without(xs[1..], a);
        assert once[1..] == Without(xs[1..], a);
        assert Without(once, b) == (if xs[0] in b then [] else [xs[0]]) + Without(once[1..], b);
      }
    }
  }

  lemma {:induction false} WithoutKeepsDistinct(xs: seq<String>, s: set<String>)
    requires Distinct(xs)
    ensures Distinct(Without(xs, s))
    decreases |xs|
  {
    if xs != [] {
      var t := xs[1..];
      assert Distinct(t);
      WithoutKeepsDistinct(t, s);
      var rest := Without(t, s);
      if xs[0] !in s {
        var r := Without(xs, s);
        assert r == [xs[0]] + rest;
        forall k | 0 <= k < |t| ensures t[k] != xs[0] {
          assert t[k] == xs[k + 1];
        }
        forall i, j | 0 <= i < j < |r| ensures r[i] != r[j] {
          if i == 0 {
            assert r[j] == rest[j - 1] && rest[j - 1] in rest;
          } else {
            assert r[i] == rest[i - 1] && r[j] == rest[j - 1];
          }
        }
      }
    }
  }


  /** The stored paths the scan clears in its first loop: the gone and the changed ones. */
  ghost function Touched(snapshot: map<String, String>, fs: map<String, FileEntry>, algorithmAvailable: bool,
                         sha256: seq<JByte> -> seq<JByte>, done: set<String>): set<String>
  {
    set p | p in done && p in snapshot && Examine(fs, algorithmAvailable, sha256, p, snapshot[p]) != Unchanged
  }

  /** The stored paths whose digest the first loop replaces. */
  predicate Redigested(snapshot: map<String, String>, fs: map<String, FileEntry>, algorithmAvailable: bool,
                       sha256: seq<JByte> -> seq<JByte>, p: String)
  {
    p in snapshot && Examine(fs, algorithmAvailable, sha256, p, snapshot[p]).Changed?
  }

  /** Visiting one more stored path adds it to the touched set exactly when its file is gone or changed. */
  lemma TouchedStep(snapshot: map<String, String>, fs: map<String, FileEntry>, algorithmAvailable: bool,
                    sha256: seq<JByte> -> seq<JByte>, done: set<String>, p: String)
    requires p in snapshot && p !in done
    ensures var before := Touched(snapshot, fs, algorithmAvailable, sha256, done);
      p !in before &&
      Touched(snapshot, fs, algorithmAvailable, sha256, done + {p}) ==
        before + (if Examine(fs, algorithmAvailable, sha256, p, snapshot[p]) != Unchanged then {p} else {})
  {
  }

  /** The stored digests after the first loop has visited `done`: the changed ones replaced. */
  ghost function Refreshed(snapshot: map<String, String>, fs: map<String, FileEntry>, algorithmAvailable: bool,
                           sha256: seq<JByte> -> seq<JByte>, done: set<String>): map<String, String>
  {
    map p | p in snapshot :: if p in done && Redigested(snapshot, fs, algorithmAvailable, sha256, p)
                             then Examine(fs, algorithmAvailable, sha256, p, snapshot[p]).newDigest
                             else snapshot[p]
  }

  lemma RefreshedNothing(snapshot: map<String, String>, fs: map<String, FileEntry>, algorithmAvailable: bool,
                         sha256: seq<JByte> -> seq<JByte>)
    ensures Refreshed(snapshot, fs, algorithmAvailable, sha256, {}) == snapshot
  {
  }

  lemma RefreshedStep(snapshot: map<String, String>, fs: map<String, FileEntry>, algorithmAvailable: bool,
                      sha256: seq<JByte> -> seq<JByte>, done: set<String>, p: String)
    requires p in snapshot && p !in done
    ensures var v := Examine(fs, algorithmAvailable, sha256, p, snapshot[p]);
      var before := Refreshed(snapshot, fs, algorithmAvailable, sha256, done);
      Refreshed(snapshot, fs, algorithmAvailable, sha256, done + {p}) ==
        if v.Changed? then before[p := v.newDigest] else before
  {
  }

  /** A prefix one element longer. */
  lemma PrefixGrows(xs: seq<String>, i: nat)
    requires i < |xs|
    ensures xs[..i + 1] == xs[..i] + [xs[i]]
  {
  }

  /** Taking one more visited path off the multiset of paths still to visit. */
  lemma MinusOneMore(m: multiset<String>, done: set<String>, p: String)
    requires p !in done
    ensures m - multiset(done) - multiset{p} == m - multiset(done + {p})
  {
    assert multiset(done + {p}) == multiset(done) + multiset{p};
  }

  /** Taking one more stored path off the working list keeps its two descriptions. */
  lemma WorkingStep(current: seq<String>, working: seq<String>, done: set<String>, p: String)
    requires p !in done
    requires multiset(working) == multiset(current) - multiset(done)
    requires Distinct(current) ==> working == Without(current, done) && Distinct(working)
    ensures multiset(RemoveFirst(working, p)) == multiset(current) - multiset(done + {p})
    ensures Distinct(current) ==> RemoveFirst(working, p) == Without(current, done + {p}) && Distinct(RemoveFirst(working, p))
  {
    RemoveFirstMultiset(working, p);
    MinusOneMore(multiset(current), done, p);
    if Distinct(current) {
      RemoveFirstDistinct(working, p);
      WithoutKeepsDistinct(working, {p});
      WithoutTwice(current, done, {p});
    }
  }

  /** The paths a list holds. */
  function ElemsOf(xs: seq<String>): (r: set<String>)
    ensures forall x :: x in r <==> x in xs
  {
    if xs == [] then {} else ElemsOf(xs[..|xs| - 1]) + {xs[|xs| - 1]}
  }

  /** The digests the second loop stores: one per listed path the file system holds. */
  function NewDigests(xs: seq<String>, fs: map<String, FileEntry>, algorithmAvailable: bool,
                      sha256: seq<JByte> -> seq<JByte>): (r: map<String, String>)
    ensures forall p :: p in r <==> p in xs && Exists(fs, p)
    ensures forall p :: p in r ==> p in fs && r[p] == FileDigest(fs[p], algorithmAvailable, sha256)
  {
    if xs == [] then map[]
    else
      var p := xs[|xs| - 1];
      var before := NewDigests(xs[..|xs| - 1], fs, algorithmAvailable, sha256);
      if Exists(fs, p) then before[p := FileDigest(fs[p], algorithmAvailable, sha256)] else before
  }

  lemma MergeThenStore(base: map<String, String>, added: map<String, String>, p: String, d: String)
    ensures (base + added)[p := d] == base + added[p := d]
  {
  }

  /** What the first loop has computed once it has visited the stored paths `done`. */
  ghost predicate Bookkept(current: seq<String>, snapshot: map<String, String>, fs: map<String, FileEntry>,
                           algorithmAvailable: bool, sha256: seq<JByte> -> seq<JByte>, done: set<String>,
                           changedCount: nat, working: seq<String>, reparsed: seq<String>)
  {
    changedCount == |Touched(snapshot, fs, algorithmAvailable, sha256, done)| &&
    multiset(working) == multiset(current) - multiset(done) &&
    (Distinct(current) ==> working == Without(current, done) && Distinct(working)) &&
    forall p :: p in reparsed <==> p in done && Redigested(snapshot, fs, algorithmAvailable, sha256, p)
  }

  /** The bookkeeping of the first loop after one more stored path. */
  lemma BookkeptStep(current: seq<String>, snapshot: map<String, String>, fs: map<String, FileEntry>,
                     algorithmAvailable: bool, sha256: seq<JByte> -> seq<JByte>, done: set<String>, p: String,
                     changedCount: nat, working: seq<String>, reparsed: seq<String>)
    requires p in snapshot && p !in done
    requires Bookkept(current, snapshot, fs, algorithmAvailable, sha256, done, changedCount, working, reparsed)
    ensures var v := Examine(fs, algorithmAvailable, sha256, p, snapshot[p]);
      Bookkept(current, snapshot, fs, algorithmAvailable, sha256, done + {p},
               changedCount + (if v != Unchanged then 1 else 0), RemoveFirst(working, p),
               reparsed + (if v.Changed? then [p] else []))
  {
    WorkingStep(current, working, done, p);
    CountStep(snapshot, fs, algorithmAvailable, sha256, done, p);
    ReparsedStep(snapshot, fs, algorithmAvailable, sha256, done, p, reparsed);
  }

  /** One more stored path is counted exactly when it is gone or changed. */
  lemma CountStep(snapshot: map<String, String>, fs: map<String, FileEntry>, algorithmAvailable: bool,
                  sha256: seq<JByte> -> seq<JByte>, done: set<String>, p: String)
    requires p in snapshot && p !in done
    ensures |Touched(snapshot, fs, algorithmAvailable, sha256, done + {p})| ==
            |Touched(snapshot, fs, algorithmAvailable, sha256, done)| +
            (if Examine(fs, algorithmAvailable, sha256, p, snapshot[p]) != Unchanged then 1 else 0)
  {
    TouchedStep(snapshot, fs, algorithmAvailable, sha256, done, p);
  }

  /** One more stored path is handed to the parsers exactly when its digest changed. */
  lemma ReparsedStep(snapshot: map<String, String>, fs: map<String, FileEntry>, algorithmAvailable: bool,
                     sha256: seq<JByte> -> seq<JByte>, done: set<String>, p: String, reparsed: seq<String>)
    requires p in snapshot
    requires forall q :: q in reparsed <==> q in done && Redigested(snapshot, fs, algorithmAvailable, sha256, q)
    ensures var r := reparsed + (if Examine(fs, algorithmAvailable, sha256, p, snapshot[p]).Changed? then [p] else []);
      forall q :: q in r <==> q in done + {p} && Redigested(snapshot, fs, algorithmAvailable, sha256, q)
  {
  }

  /** Before the first loop nothing is counted and the working list is the whole listing. */
  lemma BookkeptStart(current: seq<String>, snapshot: map<String, String>, fs: map<String, FileEntry>,
                      algorithmAvailable: bool, sha256: seq<JByte> -> seq<JByte>)
    ensures Bookkept(current, snapshot, fs, algorithmAvailable, sha256, {}, 0, current, [])
  {
    assert Touched(snapshot, fs, algorithmAvailable, sha256, {}) == {};
    var none: set<String> := {};
    assert multiset(none) == multiset{};
    WithoutAbsent(current, {});
  }

  // ---------------------------------------------------------------- the staleness ladder

  /** A suggestion to refresh: which of the five checks fired, and the range it refreshes. */
  datatype Staleness = Staleness(flag: nat, range: RefreshRange)

  /** The five checks, in the order they are tried. */
  function Flags(java: nat, xml: nat, digests: nat, methodCalls: nat): seq<bool>
  {
    [ java == 0 && xml != 0,
      java != 0 && xml == 0,
      java == 0 && xml == 0,
      (java != 0 || xml != 0) && digests == 0,
      methodCalls == 0 ]
  }

  /** The range each check's refresh button covers. */
  const FlagRanges: seq<RefreshRange> := [Java, Xml, All, All, JavaMethodCall]

  /** The first check that fires, and the refresh it suggests. */
  function Ladder(java: nat, xml: nat, digests: nat, methodCalls: nat): (r: Option<Staleness>)
    ensures var fs := Flags(java, xml, digests, methodCalls);
      (r.None? <==> true !in fs) &&
      (r.Some? ==> 1 <= r.value.flag <= 5 && fs[r.value.flag - 1] && r.value.range == FlagRanges[r.value.flag - 1] &&
                   true !in fs[..r.value.flag - 1])
  {
    if java == 0 && xml != 0 then Some(Staleness(1, Java))
    else if java != 0 && xml == 0 then Some(Staleness(2, Xml))
    else if java == 0 && xml == 0 then Some(Staleness(3, All))
    else if (java != 0 || xml != 0) && digests == 0 then Some(Staleness(4, All))
    else if methodCalls == 0 then Some(Staleness(5, JavaMethodCall))
    else None
  }

  /** The ladder is quiet exactly when every table holds something, method-call rows included. */
  lemma LadderQuiet(java: nat, xml: nat, digests: nat, methodCalls: nat)
    ensures Ladder(java, xml, digests, methodCalls).None? <==> java != 0 && xml != 0 && digests != 0 && methodCalls != 0
  {
  }

  /** The fourth check is reached only with both element tables non-empty. */
  lemma MissingDigestsNeedBothTables(java: nat, xml: nat, digests: nat, methodCalls: nat)
    requires Ladder(java, xml, digests, methodCalls) == Some(Staleness(4, All))
    ensures java != 0 && xml != 0 && digests == 0
  {
    var fs := Flags(java, xml, digests, methodCalls);
    assert !fs[0] && !fs[1] && !fs[2] && fs[3];
  }

  /** The notification key: the class name plus the check that fired. */
  function NotificationKey(flag: nat): String
  {
    ManagerName + "-flag" + NatToString(flag)
  }


  // ---------------------------------------------------------------- syncing a parsed mapper file

  /** A tag of a parsed mapper file: its name, its range and its `databaseId` attribute. */
  datatype MapperTag = MapperTag(name: String, startOffset: int, endOffset: int, databaseId: Option<String>)

  /** The row of statement `t` listed under id `id` of namespace `namespace`. */
  function StatementRow(path: String, namespace: String, id: String, t: MapperTag): XmlRow
  {
    XmlRow(Some(path), t.startOffset, t.endOffset, t.name, Some(namespace + "." + id),
           if t.databaseId.Some? then t.databaseId.value else [])
  }

  /** The rows of one id's statement list, in list order. */
  function StatementRows(path: String, namespace: String, id: String, ts: seq<MapperTag>): (r: seq<XmlRow>)
    ensures |r| == |ts|
    ensures forall j :: 0 <= j < |ts| ==> r[j] == StatementRow(path, namespace, id, ts[j])
  {
    if ts == [] then []
    else StatementRows(path, namespace, id, ts[..|ts| - 1]) + [StatementRow(path, namespace, id, ts[|ts| - 1])]
  }

  /** The rows of the ids `ks`, visited in that order: each id's statement rows in list order. */
  function IdsRows(path: String, namespace: String, ks: seq<String>, statements: map<String, seq<MapperTag>>): (r: seq<XmlRow>)
    requires forall k :: k in ks ==> k in statements
  {
    if ks == [] then []
    else IdsRows(path, namespace, ks[..|ks| - 1], statements) +
         StatementRows(path, namespace, ks[|ks| - 1], statements[ks[|ks| - 1]])
  }

  /** A row is among one id's rows iff it is the row of one of the tags listed under it. */
  lemma StatementRowsMembers(path: String, namespace: String, id: String, ts: seq<MapperTag>, x: XmlRow)
    ensures x in StatementRows(path, namespace, id, ts) <==> exists t :: t in ts && x == StatementRow(path, namespace, id, t)
  {
    var r := StatementRows(path, namespace, id, ts);
    if x in r {
      var j :| 0 <= j < |r| && r[j] == x;
      assert ts[j] in ts;
    }
    if exists t :: t in ts && x == StatementRow(path, namespace, id, t) {
      var t :| t in ts && x == StatementRow(path, namespace, id, t);
      var j :| 0 <= j < |ts| && ts[j] == t;
      assert r[j] == x;
    }
  }

  /** A row belongs to the ids' rows iff it is among the rows of one of the ids. */
  lemma {:induction false} IdsRowsMembers(path: String, namespace: String, ks: seq<String>,
                                          statements: map<String, seq<MapperTag>>, x: XmlRow)
    requires forall k :: k in ks ==> k in statements
    ensures x in IdsRows(path, namespace, ks, statements) <==>
            exists id :: id in ks && x in StatementRows(path, namespace, id, statements[id])
    decreases |ks|
  {
    if ks != [] {
      var init, last := ks[..|ks| - 1], ks[|ks| - 1];
      assert ks == init + [last];
      IdsRowsMembers(path, namespace, init, statements, x);
      if exists id :: id in ks && x in StatementRows(path, namespace, id, statements[id]) {
        var id :| id in ks && x in StatementRows(path, namespace, id, statements[id]);
        if id != last {
          assert id in init;
        }
      }
    }
  }

  /** When the ids are all the statement ids, their rows are exactly the rows of all the statement tags. */
  lemma AllIdsRowsMembers(path: String, namespace: String, ks: seq<String>, statements: map<String, seq<MapperTag>>)
    requires forall k :: k in ks <==> k in statements
    ensures forall x :: x in IdsRows(path, namespace, ks, statements) <==>
              exists id, t :: id in statements && t in statements[id] && x == StatementRow(path, namespace, id, t)
  {
    forall x ensures x in IdsRows(path, namespace, ks, statements) <==>
                       exists id, t :: id in statements && t in statements[id] && x == StatementRow(path, namespace, id, t)
    {
      IdsRowsMembers(path, namespace, ks, statements, x);
      forall id | id in statements {
        StatementRowsMembers(path, namespace, id, statements[id], x);
      }
    }
  }

  /** Taking one more key out of the unvisited ones keeps the visited list duplicate-free and in step. */
  lemma TakeKey(ks: seq<String>, rest: set<String>, keys: set<String>, id: String)
    requires Distinct(ks) && rest <= keys && id in rest
    requires forall k :: k in ks <==> k in keys && k !in rest
    ensures Distinct(ks + [id])
    ensures forall k :: k in ks + [id] <==> k in keys && k !in rest - {id}
  {
    assert id !in ks;
  }

  /**
   * `syncToCacheManager` for a parsed mapper file: the root tag's row under the bare namespace
   * with an empty `databaseId`, then one row per statement tag under `namespace + "." + id`,
   * with `databaseId` "" where the attribute is missing. `result` is the parse result (None
   * for null): its namespace and root tag. `path` is the file's virtual path; without one,
   * `createXmlElementInfo` yields no row for any tag of the file. The ids are visited in the
   * map's own order, which the model leaves open.
   */
  method SyncXmlRows(result: Option<(String, MapperTag)>, path: Option<String>,
                     statements: map<String, seq<MapperTag>>) returns (rows: seq<XmlRow>, ghost ks: seq<String>)
    ensures result.None? || path.None? ==> rows == []
    ensures result.Some? && path.Some? ==>
              |rows| >= 1 &&
              rows[0] == XmlRow(path, result.value.1.startOffset, result.value.1.endOffset,
                                result.value.1.name, Some(result.value.0), [])
    ensures result.Some? && path.Some? ==> forall x :: x in rows[1..] <==>
              exists id, t :: id in statements && t in statements[id] &&
                              x == StatementRow(path.value, result.value.0, id, t)
    ensures result.Some? && path.Some? ==>
              Distinct(ks) && (forall k :: k in ks <==> k in statements) &&
              rows[1..] == IdsRows(path.value, result.value.0, ks, statements)
  {
    if result.None? || path.None? {
      return [], [];
    }
    var (namespace, root) := result.value;
    var tail := [];
    var rest := statements.Keys;
    ks := [];
    while rest != {}
      invariant rest <= statements.Keys
      invariant Distinct(ks) && forall k :: k in ks <==> k in statements && k !in rest
      invariant tail == IdsRows(path.value, namespace, ks, statements)
      decreases |rest|
    {
      var id :| id in rest;
      TakeKey(ks, rest, statements.Keys, id);
      assert (ks + [id])[..|ks|] == ks;
      tail := tail + StatementRows(path.value, namespace, id, statements[id]);
      rest := rest - {id};
      ks := ks + [id];
    }
    rows := [XmlRow(path, root.startOffset, root.endOffset, root.name, Some(namespace), [])] + tail;
    assert rows[1..] == tail;
    AllIdsRowsMembers(path.value, namespace, ks, statements);
  }

  // ---------------------------------------------------------------- the scan, continued

  /** The listed paths the file system holds, in list order, duplicates kept. */
  function Present(xs: seq<String>, fs: map<String, FileEntry>): (r: seq<String>)
    ensures forall x :: x in r <==> x in xs && Exists(fs, x)
    ensures |r| <= |xs|
  {
    if xs == [] then []
    else Present(xs[..|xs| - 1], fs) + (if Exists(fs, xs[|xs| - 1]) then [xs[|xs| - 1]] else [])
  }

  /** `List.remove(Object)` takes one occurrence off the list's multiset, whatever the order. */
  lemma {:induction false} RemoveFirstMultiset(xs: seq<String>, p: String)
    ensures multiset(RemoveFirst(xs, p)) == multiset(xs) - multiset{p}
    decreases |xs|
  {
    if xs != [] {
      assert xs == [xs[0]] + xs[1..];
      assert multiset(xs) == multiset{xs[0]} + multiset(xs[1..]);
      if xs[0] != p {
        RemoveFirstMultiset(xs[1..], p);
        assert RemoveFirst(xs, p) == [xs[0]] + RemoveFirst(xs[1..], p);
        assert multiset(RemoveFirst(xs, p)) == multiset{xs[0]} + multiset(RemoveFirst(xs[1..], p));
      }
    }
  }

  // ---------------------------------------------------------------- the manager

  class MyBatisCacheManagerDefault {
    const cache: MyBatisCacheDefault
    var cacheVersion: int
    /** The static `notifyFlag`: whether a staleness notification may still be shown. */
    var notifyFlag: bool

    constructor(cache: MyBatisCacheDefault)
      ensures this.cache == cache && cacheVersion == 1 && notifyFlag
    {
      this.cache := cache;
      cacheVersion := 1;
      notifyFlag := true;
    }

    /** `incrementCacheVersion`: the version goes up by one, so a reader of the old one is out of date. */
    method IncrementCacheVersion()
      modifies this
      ensures cacheVersion == old(cacheVersion) + 1 && notifyFlag == old(notifyFlag)
      ensures !IsCacheUpToDate(old(cacheVersion))
    {
      cacheVersion := cacheVersion + 1;
    }

    /** `getCurrentCacheVersion`. */
    function GetCurrentCacheVersion(): (v: int)
      reads this
      ensures IsCacheUpToDate(v)
    {
      cacheVersion
    }

    /** `isCacheUpToDate`: the caller's version is the current one. */
    predicate IsCacheUpToDate(lastKnownVersion: int)
      reads this
    {
      cacheVersion == lastKnownVersion
    }

    /** `clearFileCache`: ".java" paths clear Java rows, ".xml" paths XML rows, others nothing. */
    method ClearFileCache(filePath: String)
      modifies cache
      ensures cache.javaRows == Cleared(old(cache.javaRows), JavaPath, JavaFileSuffix, {filePath})
      ensures cache.xmlRows == Cleared(old(cache.xmlRows), XmlPath, XmlFileSuffix, {filePath})
      ensures cache.digests == old(cache.digests)
    {
      ClearedOne(cache.javaRows, JavaPath, JavaFileSuffix, filePath);
      ClearedOne(cache.xmlRows, XmlPath, XmlFileSuffix, filePath);
      SuffixesExclusive(filePath);
      if EndsWith(filePath, JavaFileSuffix) {
        cache.ClearJavaFileCache(filePath);
      } else if EndsWith(filePath, XmlFileSuffix) {
        cache.ClearXmlFileCache(filePath);
      }
    }

    /** `clearCache`: handed to the store. */
    method ClearCache(range: RefreshRange)
      modifies cache
      ensures range == Xml ==> cache.xmlRows == [] && cache.javaRows == old(cache.javaRows) && cache.digests == old(cache.digests)
      ensures range == Java ==> cache.javaRows == [] && cache.xmlRows == old(cache.xmlRows) && cache.digests == old(cache.digests)
      ensures range == JavaMethodCall ==>
                cache.javaRows == WithoutMethodCalls(old(cache.javaRows)) &&
                cache.xmlRows == old(cache.xmlRows) && cache.digests == old(cache.digests)
      ensures range == All ==> cache.javaRows == [] && cache.xmlRows == [] && cache.digests == map[]
    {
      cache.ClearCache(range);
    }

    /** Clearing one more path, as `clearFileCache` does inside the scan. */
    method ClearOneMore(filePath: String, ghost java0: seq<JavaRow>, ghost xml0: seq<XmlRow>, ghost cleared: set<String>)
      modifies cache
      requires cache.javaRows == Cleared(java0, JavaPath, JavaFileSuffix, cleared)
      requires cache.xmlRows == Cleared(xml0, XmlPath, XmlFileSuffix, cleared)
      ensures cache.javaRows == Cleared(java0, JavaPath, JavaFileSuffix, cleared + {filePath})
      ensures cache.xmlRows == Cleared(xml0, XmlPath, XmlFileSuffix, cleared + {filePath})
      ensures cache.digests == old(cache.digests)
    {
      ClearFileCache(filePath);
      ClearedTwice(java0, JavaPath, JavaFileSuffix, cleared, {filePath});
      ClearedTwice(xml0, XmlPath, XmlFileSuffix, cleared, {filePath});
    }

    /**
     * The body of the first loop of `scanForFileChanges` for one stored path: a missing file
     * is cleared; a file whose digest changed is cleared and gets its new digest; an unchanged
     * file is left alone. `done` are the stored paths visited before.
     */
    method ScanStoredPath(filePath: String, snapshot: map<String, String>, fs: map<String, FileEntry>,
                          algorithmAvailable: bool, sha256: seq<JByte> -> seq<JByte>,
                          ghost java0: seq<JavaRow>, ghost xml0: seq<XmlRow>, ghost done: set<String>)
      returns (v: Verdict)
      modifies cache
      requires filePath in snapshot && filePath !in done
      requires cache.javaRows == Cleared(java0, JavaPath, JavaFileSuffix, Touched(snapshot, fs, algorithmAvailable, sha256, done))
      requires cache.xmlRows == Cleared(xml0, XmlPath, XmlFileSuffix, Touched(snapshot, fs, algorithmAvailable, sha256, done))
      requires cache.digests == Refreshed(snapshot, fs, algorithmAvailable, sha256, done)
      ensures v == Examine(fs, algorithmAvailable, sha256, filePath, snapshot[filePath])
      ensures cache.javaRows == Cleared(java0, JavaPath, JavaFileSuffix, Touched(snapshot, fs, algorithmAvailable, sha256, done + {filePath}))
      ensures cache.xmlRows == Cleared(xml0, XmlPath, XmlFileSuffix, Touched(snapshot, fs, algorithmAvailable, sha256, done + {filePath}))
      ensures cache.digests == Refreshed(snapshot, fs, algorithmAvailable, sha256, done + {filePath})
    {
      TouchedStep(snapshot, fs, algorithmAvailable, sha256, done, filePath);
      RefreshedStep(snapshot, fs, algorithmAvailable, sha256, done, filePath);
      ghost var cleared := Touched(snapshot, fs, algorithmAvailable, sha256, done);
      if !Exists(fs, filePath) {
        ClearOneMore(filePath, java0, xml0, cleared);
        return Gone;
      }
      var newDigest := CalculateFileDigest(fs[filePath], algorithmAvailable, sha256);
      if newDigest != snapshot[filePath] {
        ClearOneMore(filePath, java0, xml0, cleared);
        cache.SaveFileDigest(filePath, newDigest);
        return Changed(newDigest);
      }
      assert Examine(fs, algorithmAvailable, sha256, filePath, snapshot[filePath]) == Unchanged;
      assert Touched(snapshot, fs, algorithmAvailable, sha256, done + {filePath}) == cleared;
      return Unchanged;
    }

    /** The store's state once the first loop has visited the stored paths `done`. */
    ghost predicate StoredState(java0: seq<JavaRow>, xml0: seq<XmlRow>, snapshot: map<String, String>,
                                fs: map<String, FileEntry>, algorithmAvailable: bool, sha256: seq<JByte> -> seq<JByte>,
                                done: set<String>)
      reads cache
    {
      cache.javaRows == Cleared(java0, JavaPath, JavaFileSuffix, Touched(snapshot, fs, algorithmAvailable, sha256, done)) &&
      cache.xmlRows == Cleared(xml0, XmlPath, XmlFileSuffix, Touched(snapshot, fs, algorithmAvailable, sha256, done)) &&
      cache.digests == Refreshed(snapshot, fs, algorithmAvailable, sha256, done)
    }

    /** One turn of the first loop: takes the path off the working list, examines it and counts it. */
    method VisitStored(filePath: String, current: seq<String>, snapshot: map<String, String>, fs: map<String, FileEntry>,
                       algorithmAvailable: bool, sha256: seq<JByte> -> seq<JByte>,
                       ghost java0: seq<JavaRow>, ghost xml0: seq<XmlRow>, ghost done: set<String>,
                       changedCount: nat, working: seq<String>, reparsed: seq<String>)
      returns (changedCount': nat, working': seq<String>, reparsed': seq<String>)
      modifies cache
      requires filePath in snapshot && filePath !in done
      requires Bookkept(current, snapshot, fs, algorithmAvailable, sha256, done, changedCount, working, reparsed)
      requires StoredState(java0, xml0, snapshot, fs, algorithmAvailable, sha256, done)
      ensures Bookkept(current, snapshot, fs, algorithmAvailable, sha256, done + {filePath}, changedCount', working', reparsed')
      ensures StoredState(java0, xml0, snapshot, fs, algorithmAvailable, sha256, done + {filePath})
    {
      var v := ScanStoredPath(filePath, snapshot, fs, algorithmAvailable, sha256, java0, xml0, done);
      BookkeptStep(current, snapshot, fs, algorithmAvailable, sha256, done, filePath, changedCount, working, reparsed);
      working' := RemoveFirst(working, filePath);
      changedCount', reparsed' := changedCount, reparsed;
      if v != Unchanged {
        changedCount' := changedCount + 1;
      }
      if v.Changed? {
        reparsed' := reparsed + [filePath];
      }
    }

    /**
     * The first loop of `scanForFileChanges`, over a snapshot of the stored digests, visited
     * in the map's own order: each stored path is taken off the working list and examined; the
     * gone and changed ones are counted, and the changed ones are handed to the parsers.
     */
    method ScanStoredDigests(current: seq<String>, fs: map<String, FileEntry>, algorithmAvailable: bool,
                             sha256: seq<JByte> -> seq<JByte>)
      returns (changedCount: nat, working: seq<String>, reparsed: seq<String>)
      modifies cache
      ensures Bookkept(current, old(cache.digests), fs, algorithmAvailable, sha256, old(cache.digests).Keys,
                       changedCount, working, reparsed)
      ensures cache.javaRows == Cleared(old(cache.javaRows), JavaPath, JavaFileSuffix,
                                        Touched(old(cache.digests), fs, algorithmAvailable, sha256, old(cache.digests).Keys))
      ensures cache.xmlRows == Cleared(old(cache.xmlRows), XmlPath, XmlFileSuffix,
                                       Touched(old(cache.digests), fs, algorithmAvailable, sha256, old(cache.digests).Keys))
      ensures cache.digests == Refreshed(old(cache.digests), fs, algorithmAvailable, sha256, old(cache.digests).Keys)
    {
      var snapshot := cache.digests;
      ghost var java0, xml0 := cache.javaRows, cache.xmlRows;
      ClearedNothing(java0, JavaPath, JavaFileSuffix);
      ClearedNothing(xml0, XmlPath, XmlFileSuffix);
      BookkeptStart(current, snapshot, fs, algorithmAvailable, sha256);
      RefreshedNothing(snapshot, fs, algorithmAvailable, sha256);
      changedCount, working, reparsed := VisitAllStored(current, snapshot, fs, algorithmAvailable, sha256, java0, xml0);
    }

    /** The loop itself, from the state before the first visit to the state after the last. */
    method VisitAllStored(current: seq<String>, snapshot: map<String, String>, fs: map<String, FileEntry>,
                          algorithmAvailable: bool, sha256: seq<JByte> -> seq<JByte>,
                          ghost java0: seq<JavaRow>, ghost xml0: seq<XmlRow>)
      returns (changedCount: nat, working: seq<String>, reparsed: seq<String>)
      modifies cache
      requires StoredState(java0, xml0, snapshot, fs, algorithmAvailable, sha256, {})
      requires Bookkept(current, snapshot, fs, algorithmAvailable, sha256, {}, 0, current, [])
      ensures StoredState(java0, xml0, snapshot, fs, algorithmAvailable, sha256, snapshot.Keys)
      ensures Bookkept(current, snapshot, fs, algorithmAvailable, sha256, snapshot.Keys, changedCount, working, reparsed)
    {
      changedCount := 0;
      working := current;
      reparsed := [];
      var rest := snapshot.Keys;
      ghost var done: set<String> := {};
      while rest != {}
        invariant done !! rest && done + rest == snapshot.Keys
        invariant Bookkept(current, snapshot, fs, algorithmAvailable, sha256, done, changedCount, working, reparsed)
        invariant StoredState(java0, xml0, snapshot, fs, algorithmAvailable, sha256, done)
        decreases |rest|
      {
        var filePath :| filePath in rest;
        assert (done + {filePath}) + (rest - {filePath}) == done + rest;
        rest := rest - {filePath};
        changedCount, working, reparsed :=
          VisitStored(filePath, current, snapshot, fs, algorithmAvailable, sha256, java0, xml0, done, changedCount, working, reparsed);
        done := done + {filePath};
      }
      assert done == snapshot.Keys;
    }

    /**
     * The body of the second loop of `scanForFileChanges` for one path: clears it, and stores
     * its digest when the file system holds it. `done` are the paths visited before.
     */
    /** What the second scan loop has done after visiting the paths of `done`, in order. */
    ghost predicate NewState(java0: seq<JavaRow>, xml0: seq<XmlRow>, digests0: map<String, String>,
                             fs: map<String, FileEntry>, algorithmAvailable: bool,
                             sha256: seq<JByte> -> seq<JByte>, done: seq<String>)
      reads cache
    {
      && cache.javaRows == Cleared(java0, JavaPath, JavaFileSuffix, ElemsOf(done))
      && cache.xmlRows == Cleared(xml0, XmlPath, XmlFileSuffix, ElemsOf(done))
      && cache.digests == digests0 + NewDigests(done, fs, algorithmAvailable, sha256)
    }

    method ScanNewPath(filePath: String, fs: map<String, FileEntry>, algorithmAvailable: bool,
                       sha256: seq<JByte> -> seq<JByte>, ghost java0: seq<JavaRow>, ghost xml0: seq<XmlRow>,
                       ghost digests0: map<String, String>, ghost done: seq<String>)
      returns (found: bool)
      modifies cache
      requires NewState(java0, xml0, digests0, fs, algorithmAvailable, sha256, done)
      ensures found == Exists(fs, filePath)
      ensures NewState(java0, xml0, digests0, fs, algorithmAvailable, sha256, done + [filePath])
    {
      assert (done + [filePath])[..|done|] == done;
      assert ElemsOf(done + [filePath]) == ElemsOf(done) + {filePath};
      ghost var before := NewDigests(done, fs, algorithmAvailable, sha256);
      ClearOneMore(filePath, java0, xml0, ElemsOf(done));
      var newDigest := CalculateFileDigest(EntryAt(fs, filePath), algorithmAvailable, sha256);
      found := Exists(fs, filePath);
      if found {
        assert NewDigests(done + [filePath], fs, algorithmAvailable, sha256) == before[filePath := newDigest];
        MergeThenStore(digests0, before, filePath, newDigest);
        cache.SaveFileDigest(filePath, newDigest);
      } else {
        assert NewDigests(done + [filePath], fs, algorithmAvailable, sha256) == before;
      }
    }

    /**
     * The second loop of `scanForFileChanges`, over the listed paths no digest was stored for:
     * each is cleared; each the file system holds gets its digest, is re-parsed and counted.
     */
    method ScanNewFiles(working: seq<String>, fs: map<String, FileEntry>, algorithmAvailable: bool,
                        sha256: seq<JByte> -> seq<JByte>)
      returns (newCount: nat, reparsed: seq<String>)
      modifies cache
      ensures reparsed == Present(working, fs) && newCount == |reparsed|
      ensures cache.javaRows == Cleared(old(cache.javaRows), JavaPath, JavaFileSuffix, ElemsOf(working))
      ensures cache.xmlRows == Cleared(old(cache.xmlRows), XmlPath, XmlFileSuffix, ElemsOf(working))
      ensures cache.digests == old(cache.digests) + NewDigests(working, fs, algorithmAvailable, sha256)
    {
      ghost var java0, xml0, digests0 := cache.javaRows, cache.xmlRows, cache.digests;
      newCount := 0;
      reparsed := [];
      ClearedNothing(java0, JavaPath, JavaFileSuffix);
      ClearedNothing(xml0, XmlPath, XmlFileSuffix);
      var i := 0;
      ghost var done: seq<String> := [];
      assert digests0 + map[] == digests0;
      assert ElemsOf(done) == {} && NewDigests(done, fs, algorithmAvailable, sha256) == map[];
      assert NewState(java0, xml0, digests0, fs, algorithmAvailable, sha256, done);
      while i < |working|
        invariant 0 <= i <= |working| && done == working[..i]
        invariant reparsed == Present(done, fs) && newCount == |reparsed|
        invariant NewState(java0, xml0, digests0, fs, algorithmAvailable, sha256, done)
      {
        var filePath := working[i];
        assert (done + [filePath])[..|done|] == done;
        assert Present(done + [filePath], fs) == Present(done, fs) + (if Exists(fs, filePath) then [filePath] else []);
        var found := ScanNewPath(filePath, fs, algorithmAvailable, sha256, java0, xml0, digests0, done);
        if found {
          newCount := newCount + 1;
          reparsed := reparsed + [filePath];
        }
        PrefixGrows(working, i);
        done := done + [filePath];
        i := i + 1;
      }
      assert working[..i] == working;
      assert NewState(java0, xml0, digests0, fs, algorithmAvailable, sha256, working);
    }

    /**
     * `scanForFileChanges`: `current` is the list of ".xml" and ".java" paths under the source
     * roots. Returns the two counts, the listed paths without a stored digest, and the files
     * handed to the parsers: the changed stored ones and the new ones that exist.
     */
    method ScanForFileChanges(current: seq<String>, fs: map<String, FileEntry>, algorithmAvailable: bool,
                              sha256: seq<JByte> -> seq<JByte>)
      returns (changedCount: nat, newCount: nat, added: seq<String>, reparsedChanged: seq<String>, reparsedNew: seq<String>)
      modifies cache
      ensures changedCount == |Touched(old(cache.digests), fs, algorithmAvailable, sha256, old(cache.digests).Keys)|
      ensures multiset(added) == multiset(current) - multiset(old(cache.digests).Keys)
      ensures Distinct(current) ==> added == Without(current, old(cache.digests).Keys)
      ensures forall p :: p in reparsedChanged <==> Redigested(old(cache.digests), fs, algorithmAvailable, sha256, p)
      ensures reparsedNew == Present(added, fs) && newCount == |reparsedNew|
      ensures cache.javaRows == Cleared(old(cache.javaRows), JavaPath, JavaFileSuffix,
                Touched(old(cache.digests), fs, algorithmAvailable, sha256, old(cache.digests).Keys) + ElemsOf(added))
      ensures cache.xmlRows == Cleared(old(cache.xmlRows), XmlPath, XmlFileSuffix,
                Touched(old(cache.digests), fs, algorithmAvailable, sha256, old(cache.digests).Keys) + ElemsOf(added))
      ensures cache.digests == Refreshed(old(cache.digests), fs, algorithmAvailable, sha256, old(cache.digests).Keys) +
                               NewDigests(added, fs, algorithmAvailable, sha256)
    {
      ghost var java0, xml0 := cache.javaRows, cache.xmlRows;
      ghost var touched := Touched(cache.digests, fs, algorithmAvailable, sha256, cache.digests.Keys);
      changedCount, added, reparsedChanged := ScanStoredDigests(current, fs, algorithmAvailable, sha256);
      newCount, reparsedNew := ScanNewFiles(added, fs, algorithmAvailable, sha256);
      ClearedTwice(java0, JavaPath, JavaFileSuffix, touched, ElemsOf(added));
      ClearedTwice(xml0, XmlPath, XmlFileSuffix, touched, ElemsOf(added));
    }

    /** `getStatementIdForMethod`: `className.methodName` when XML rows exist under it, else null. */
    method GetStatementIdForMethod(className: String, methodName: String) returns (r: Option<String>)
      ensures r.Some? <==> exists x :: x in cache.xmlRows && x.sqlId == Some(className + "." + methodName)
      ensures r.Some? ==> r.value == className + "." + methodName
    {
      var sqlId := className + "." + methodName;
      var xmlElements := cache.GetXmlElementsBySqlId(sqlId);
      if xmlElements == {} {
        return None;
      }
      return Some(sqlId);
    }

    /**
     * `getMethodForStatementId`: when some "method" row is stored under the statement id, the
     * text after the id's last '.', else null. Every such row carries that same id, so which
     * one the stream meets first does not matter.
     */
    method GetMethodForStatementId(xmlFilePath: String, statementId: String) returns (r: Option<String>)
      ensures r.Some? <==> exists x :: x in cache.javaRows && x.sqlId == Some(statementId) && x.elementType == TypeMethod
      ensures r.Some? ==> r.value == statementId[LastIndexOfChar(statementId, '.') + 1..]
    {
      var javaElements := cache.GetJavaElementsBySqlId(statementId);
      if javaElements == {} {
        return None;
      }
      if x :| x in javaElements && x.elementType == TypeMethod {
        var id := x.sqlId.value;
        return Some(id[LastIndexOfChar(id, '.') + 1..]);
      }
      return None;
    }

    /**
     * `checkForCacheInvalidationAndNotify`: when a check fires and no notification has been
     * shown yet, shows one (returned as its key and the refresh its button runs) and turns the
     * flag off; otherwise changes nothing.
     */
    method CheckForCacheInvalidationAndNotify() returns (shown: bool, notification: Option<(String, RefreshRange)>)
      modifies this
      ensures var l := Ladder(cache.CountElementJavaTable(), cache.CountElementXmlTable(),
                              cache.CountFileDigestTable(), cache.CountElementJavaTableByMethodCall());
        (shown <==> l.Some? && old(notifyFlag)) &&
        (shown ==> !notifyFlag && notification == Some((NotificationKey(l.value.flag), l.value.range))) &&
        (!shown ==> notifyFlag == old(notifyFlag) && notification == None)
      ensures cacheVersion == old(cacheVersion)
    {
      var l := Ladder(cache.CountElementJavaTable(), cache.CountElementXmlTable(),
                      cache.CountFileDigestTable(), cache.CountElementJavaTableByMethodCall());
      if l.Some? && notifyFlag {
        notifyFlag := false;
        return true, Some((NotificationKey(l.value.flag), l.value.range));
      }
      return false, None;
    }

    /**
     * `performFullCacheRefresh`: turns the flag off, and the background task it starts clears
     * the range, re-parses it, raises the version and turns the flag back on, so a later check
     * may warn again. The task ends with a notification whose text says whether this refresh
     * was a repeated one; `repeated` tells which.
     */
    method PerformFullCacheRefresh(range: RefreshRange, numberOfRefreshes: int) returns (repeated: bool)
      modifies this, cache
      ensures range == Xml ==> cache.xmlRows == [] && cache.javaRows == old(cache.javaRows) && cache.digests == old(cache.digests)
      ensures range == Java ==> cache.javaRows == [] && cache.xmlRows == old(cache.xmlRows) && cache.digests == old(cache.digests)
      ensures range == JavaMethodCall ==>
                cache.javaRows == WithoutMethodCalls(old(cache.javaRows)) &&
                cache.xmlRows == old(cache.xmlRows) && cache.digests == old(cache.digests)
      ensures range == All ==> cache.javaRows == [] && cache.xmlRows == [] && cache.digests == map[]
      ensures cacheVersion == old(cacheVersion) + 1 && !IsCacheUpToDate(old(cacheVersion))
      ensures notifyFlag
      ensures repeated <==> numberOfRefreshes > 0
    {
      notifyFlag := false;
      ClearCache(range);
      IncrementCacheVersion();
      notifyFlag := true;
      repeated := numberOfRefreshes > 0;
    }
  }

  /**
   * A refresh re-arms the staleness warning: whatever an earlier check did, a check after a
   * refresh shows its notification exactly when one of its checks fires.
   */
  method WarnAgainAfterRefresh(m: MyBatisCacheManagerDefault, range: RefreshRange)
    returns (first: bool, second: bool)
    modifies m, m.cache
    ensures second <==> Ladder(m.cache.CountElementJavaTable(), m.cache.CountElementXmlTable(),
                               m.cache.CountFileDigestTable(), m.cache.CountElementJavaTableByMethodCall()).Some?
    ensures m.cacheVersion == old(m.cacheVersion) + 1
  {
    var n1;
    first, n1 := m.CheckForCacheInvalidationAndNotify();
    var _ := m.PerformFullCacheRefresh(range, 0);
    var n2;
    second, n2 := m.CheckForCacheInvalidationAndNotify();
  }
}
