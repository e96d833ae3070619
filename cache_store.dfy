/**
 * The newer tree's cache store, `MyBatisCacheDefault`: the Java element rows, the XML element
 * rows and the file digests, and the maps and sets it builds from them.
 *
 * The store's own database layer is not part of this model. Its tables are kept here as
 * sequences of rows in insertion order; inserting appends, deleting by path or by SQL id keeps
 * the other rows in order, and the digest table is a map from path to digest.
 */
module CacheStore {
  import opened Wrappers
  import opened JavaText
  import opened ProjectFiles

  /** `MyBatisCacheRefreshRange`: which part of the cache a refresh or a clear covers. */
  datatype RefreshRange = Java | Xml | JavaMethodCall | All

  /** The element types the Java rows carry (`JavaService.TYPE_METHOD`, `TYPE_METHOD_CALL`). */
  const TypeMethod: String := "method"
  const TypeMethodCall: String := "methodCall"

  /** A stored Java element; `equals` compares all five fields. */
  datatype JavaRow = JavaRow(filePath: Option<String>, startOffset: int, endOffset: int,
                             elementType: String, sqlId: Option<String>)

  /** A stored XML element; `equals` and `hashCode` leave out `databaseId`. */
  datatype XmlRow = XmlRow(filePath: Option<String>, startOffset: int, endOffset: int,
                           tagName: String, sqlId: Option<String>, databaseId: String)

  /** The fields of an XML row that `equals` and `hashCode` look at. */
  datatype XmlIdentity = XmlIdentity(filePath: Option<String>, startOffset: int, endOffset: int,
                                     tagName: String, sqlId: Option<String>)

  function Identity(x: XmlRow): XmlIdentity
  {
    XmlIdentity(x.filePath, x.startOffset, x.endOffset, x.tagName, x.sqlId)
  }

  function JavaSqlId(x: JavaRow): Option<String> { x.sqlId }
  function XmlSqlId(x: XmlRow): Option<String> { x.sqlId }
  function JavaPath(x: JavaRow): Option<String> { x.filePath }
  function XmlPath(x: XmlRow): Option<String> { x.filePath }

  // ---------------------------------------------------------------- the batch's file paths

  /** The paths of a batch that are neither null nor blank, as a set. */
  function UniqueFilePaths<R>(rows: seq<R>, pathOf: R -> Option<String>): (r: set<String>)
    ensures forall p :: p in r <==> !IsBlank(p) && exists i :: 0 <= i < |rows| && pathOf(rows[i]) == Some(p)
  {
    set i | 0 <= i < |rows| && pathOf(rows[i]).Some? && !IsBlank(pathOf(rows[i]).value) :: pathOf(rows[i]).value
  }

  // ---------------------------------------------------------------- getSqlIdTo*Elements

  /**
   * The loop of `getSqlIdToJavaElements` and `getSqlIdToXmlElements`: every row with a SQL id
   * goes into the set under that id (`computeIfAbsent(.., new HashSet).add(..)`), rows without
   * one are skipped.
   */
  method GroupBySqlId<R>(rows: set<R>, sqlIdOf: R -> Option<String>) returns (r: map<String, set<R>>)
    ensures rows == {} ==> r == map[]
    ensures forall k :: k in r ==> r[k] != {}
    ensures forall k, x :: k in r && x in r[k] ==> x in rows && sqlIdOf(x) == Some(k)
    ensures forall x :: x in rows && sqlIdOf(x).Some? ==> sqlIdOf(x).value in r && x in r[sqlIdOf(x).value]
  {
    r := map[];
    if rows == {} {
      return;
    }
    var rest := rows;
    while rest != {}
      invariant rest <= rows
      invariant forall k :: k in r ==> r[k] != {}
      invariant forall k, x :: k in r && x in r[k] ==> x in rows && sqlIdOf(x) == Some(k)
      invariant forall x :: x in rows - rest && sqlIdOf(x).Some? ==> sqlIdOf(x).value in r && x in r[sqlIdOf(x).value]
      decreases |rest|
    {
      var x :| x in rest;
      rest := rest - {x};
      var sqlId := sqlIdOf(x);
      if sqlId.None? {
        continue;
      }
      var k := sqlId.value;
      r := r[k := (if k in r then r[k] else {}) + {x}];
    }
  }

  /** A key of the map from SQL ids to rows is the SQL id of some stored row. */
  lemma KeysAreStoredSqlIds<R>(rows: set<R>, sqlIdOf: R -> Option<String>, r: map<String, set<R>>, k: String)
    requires forall k, x :: k in r && x in r[k] ==> x in rows && sqlIdOf(x) == Some(k)
    requires forall k :: k in r ==> r[k] != {}
    requires k in r
    ensures exists x :: x in rows && sqlIdOf(x) == Some(k)
  {
    var x :| x in r[k];
    assert x in rows && sqlIdOf(x) == Some(k);
  }

  // ---------------------------------------------------------------- new HashSet<>(xmlRows)

  /** Row `j` is the first of the list with its identity: the one a `HashSet` keeps. */
  ghost predicate FirstOf(list: seq<XmlRow>, j: int)
  {
    0 <= j < |list| && forall l :: 0 <= l < j ==> Identity(list[l]) != Identity(list[j])
  }

  /**
   * `new HashSet<>(list)` over XML rows: a row is added only when no row with the same
   * identity is present yet, so each identity is represented by its first row.
   */
  method XmlHashSet(list: seq<XmlRow>) returns (r: set<XmlRow>)
    ensures forall x :: x in r ==> exists j :: FirstOf(list, j) && list[j] == x
    ensures forall j :: FirstOf(list, j) ==> list[j] in r
  {
    r := {};
    var seen: set<XmlIdentity> := {};
    var i := 0;
    while i < |list|
      invariant 0 <= i <= |list|
      invariant forall l :: 0 <= l < i ==> Identity(list[l]) in seen
      invariant forall k :: k in seen ==> exists l :: 0 <= l < i && Identity(list[l]) == k
      invariant forall x :: x in r ==> exists j :: j < i && FirstOf(list, j) && list[j] == x
      invariant forall j :: 0 <= j < i && FirstOf(list, j) ==> list[j] in r
    {
      var x := list[i];
      if Identity(x) !in seen {
        assert FirstOf(list, i);
        seen := seen + {Identity(x)};
        r := r + {x};
      } else {
        assert !FirstOf(list, i);
      }
      i := i + 1;
    }
  }

  /** The set holds no two rows that `equals` identifies. */
  lemma HashSetHasNoDuplicates(list: seq<XmlRow>, r: set<XmlRow>, x: XmlRow, y: XmlRow)
    requires forall x :: x in r ==> exists j :: FirstOf(list, j) && list[j] == x
    requires x in r && y in r && Identity(x) == Identity(y)
    ensures x == y
  {
    var i :| FirstOf(list, i) && list[i] == x;
    var j :| FirstOf(list, j) && list[j] == y;
    assert !(i < j) && !(j < i);
  }

  /** Every row of the list is represented in the set by a row `equals` identifies with it. */
  lemma {:induction false} HashSetRepresentsEveryRow(list: seq<XmlRow>, r: set<XmlRow>, i: nat)
    requires forall j :: FirstOf(list, j) ==> list[j] in r
    requires i < |list|
    ensures exists y :: y in r && Identity(y) == Identity(list[i])
    decreases i
  {
    if FirstOf(list, i) {
      assert list[i] in r;
    } else {
      var l :| 0 <= l < i && Identity(list[l]) == Identity(list[i]);
      HashSetRepresentsEveryRow(list, r, l);
    }
  }

  // ---------------------------------------------------------------- the store

  /** The rows of a table with the given SQL id, in table order. */
  function WithSqlId<R(!new)>(rows: seq<R>, sqlIdOf: R -> Option<String>, sqlId: String): (r: seq<R>)
    ensures forall x :: x in r <==> x in rows && sqlIdOf(x) == Some(sqlId)
  {
    if rows == [] then []
    else WithSqlId(rows[..|rows| - 1], sqlIdOf, sqlId) +
           (if sqlIdOf(rows[|rows| - 1]) == Some(sqlId) then [rows[|rows| - 1]] else [])
  }

  /** The rows of a table whose file path is not `path`, in table order. */
  function WithoutPath<R(!new)>(rows: seq<R>, pathOf: R -> Option<String>, path: String): (r: seq<R>)
    ensures forall x :: x in r <==> x in rows && pathOf(x) != Some(path)
  {
    if rows == [] then []
    else WithoutPath(rows[..|rows| - 1], pathOf, path) +
           (if pathOf(rows[|rows| - 1]) != Some(path) then [rows[|rows| - 1]] else [])
  }

  /** The rows of a table whose SQL id is not in `ids`, in table order. */
  function WithoutSqlIds<R(!new)>(rows: seq<R>, sqlIdOf: R -> Option<String>, ids: set<String>): (r: seq<R>)
    ensures forall x :: x in r <==> x in rows && !(sqlIdOf(x).Some? && sqlIdOf(x).value in ids)
  {
    if rows == [] then []
    else WithoutSqlIds(rows[..|rows| - 1], sqlIdOf, ids) +
           (if sqlIdOf(rows[|rows| - 1]).Some? && sqlIdOf(rows[|rows| - 1]).value in ids then [] else [rows[|rows| - 1]])
  }

  /** Removing no SQL id keeps the table as it is. */
  lemma {:induction false} WithoutNoSqlIds<R(!new)>(rows: seq<R>, sqlIdOf: R -> Option<String>)
    ensures WithoutSqlIds(rows, sqlIdOf, {}) == rows
  {
    if rows != [] {
      var init, last := rows[..|rows| - 1], rows[|rows| - 1];
      WithoutNoSqlIds(init, sqlIdOf);
      var none: set<String> := {};
      assert !(sqlIdOf(last).Some? && sqlIdOf(last).value in none);
      assert rows == init + [last];
      calc {
        WithoutSqlIds(rows, sqlIdOf, none);
        WithoutSqlIds(init, sqlIdOf, none) + [last];
        init + [last];
      }
    }
  }

  /** The Java rows that are not method calls, in table order. */
  function WithoutMethodCalls(rows: seq<JavaRow>): (r: seq<JavaRow>)
    ensures forall x :: x in r <==> x in rows && x.elementType != TypeMethodCall
    ensures |r| == |rows| - |MethodCalls(rows)|
  {
    if rows == [] then []
    else WithoutMethodCalls(rows[..|rows| - 1]) +
           (if rows[|rows| - 1].elementType != TypeMethodCall then [rows[|rows| - 1]] else [])
  }

  /** The Java rows that are method calls, in table order. */
  function MethodCalls(rows: seq<JavaRow>): (r: seq<JavaRow>)
    ensures forall x :: x in r <==> x in rows && x.elementType == TypeMethodCall
    ensures |r| <= |rows|
  {
    if rows == [] then []
    else MethodCalls(rows[..|rows| - 1]) +
           (if rows[|rows| - 1].elementType == TypeMethodCall then [rows[|rows| - 1]] else [])
  }

  class MyBatisCacheDefault {
    var javaRows: seq<JavaRow>
    var xmlRows: seq<XmlRow>
    var digests: map<String, String>

    constructor()
      ensures javaRows == [] && xmlRows == [] && digests == map[]
    {
      javaRows := [];
      xmlRows := [];
      digests := map[];
    }

    /**
     * `addJavaElementMapping`: stores the batch, then digests the batch's distinct usable file
     * paths and stores the digests that came back (`cached` and `completed` stand for the
     * parallel computation, as in `CalculateFileDigestsParallel`).
     */
    method AddJavaElementMapping(infos: seq<JavaRow>, cached: map<String, String>, completed: bool)
      modifies this
      ensures javaRows == old(javaRows) + infos && xmlRows == old(xmlRows)
      ensures forall p :: p in digests <==>
                p in old(digests) || (completed && p in UniqueFilePaths(infos, JavaPath) && KeptDigest(p, cached))
      ensures forall p :: p in digests ==>
                digests[p] == if completed && p in UniqueFilePaths(infos, JavaPath) && KeptDigest(p, cached)
                              then cached[p] else old(digests)[p]
    {
      javaRows := javaRows + infos;
      var fileMap := CalculateFileDigestsParallel(UniqueFilePaths(infos, JavaPath), cached, completed);
      digests := digests + fileMap;
    }

    /** `addXmlElementMapping`: the same for a batch of XML rows. */
    method AddXmlElementMapping(infos: seq<XmlRow>, cached: map<String, String>, completed: bool)
      modifies this
      ensures xmlRows == old(xmlRows) + infos && javaRows == old(javaRows)
      ensures forall p :: p in digests <==>
                p in old(digests) || (completed && p in UniqueFilePaths(infos, XmlPath) && KeptDigest(p, cached))
      ensures forall p :: p in digests ==>
                digests[p] == if completed && p in UniqueFilePaths(infos, XmlPath) && KeptDigest(p, cached)
                              then cached[p] else old(digests)[p]
    {
      xmlRows := xmlRows + infos;
      var fileMap := CalculateFileDigestsParallel(UniqueFilePaths(infos, XmlPath), cached, completed);
      digests := digests + fileMap;
    }

    /** `getJavaElementsBySqlId`: the set of stored Java rows with that SQL id. */
    method GetJavaElementsBySqlId(sqlId: String) returns (r: set<JavaRow>)
      ensures forall x :: x in r <==> x in javaRows && x.sqlId == Some(sqlId)
    {
      var found := WithSqlId(javaRows, JavaSqlId, sqlId);
      if |found| == 0 {
        return {};
      }
      r := set x | x in found;
    }

    /**
     * `getXmlElementsBySqlId`: the stored XML rows with that SQL id, put into a `HashSet`, so
     * rows that differ only in `databaseId` collapse into the first of them.
     */
    method GetXmlElementsBySqlId(sqlId: String) returns (r: set<XmlRow>)
      ensures forall x :: x in r ==> x in xmlRows && x.sqlId == Some(sqlId)
      ensures forall x :: x in xmlRows && x.sqlId == Some(sqlId) ==> exists y :: y in r && Identity(y) == Identity(x)
      ensures forall x, y :: x in r && y in r && Identity(x) == Identity(y) ==> x == y
    {
      var found := WithSqlId(xmlRows, XmlSqlId, sqlId);
      if |found| == 0 {
        return {};
      }
      r := XmlHashSet(found);
      forall x | x in xmlRows && x.sqlId == Some(sqlId)
        ensures exists y :: y in r && Identity(y) == Identity(x)
      {
        var i :| 0 <= i < |found| && found[i] == x;
        HashSetRepresentsEveryRow(found, r, i);
      }
      forall x, y | x in r && y in r && Identity(x) == Identity(y)
        ensures x == y
      {
        HashSetHasNoDuplicates(found, r, x, y);
      }
    }

    /** `getSqlIdToJavaElements`: every stored Java row with a SQL id, grouped by it. */
    method GetSqlIdToJavaElements() returns (r: map<String, set<JavaRow>>)
      ensures javaRows == [] ==> r == map[]
      ensures forall k :: k in r ==> r[k] != {}
      ensures forall k, x :: k in r && x in r[k] ==> x in javaRows && x.sqlId == Some(k)
      ensures forall x :: x in javaRows && x.sqlId.Some? ==> x.sqlId.value in r && x in r[x.sqlId.value]
    {
      var all := set x | x in javaRows;
      assert forall x :: x in all <==> x in javaRows;
      r := GroupBySqlId(all, JavaSqlId);
    }

    /**
     * `getSqlIdToXmlElements`: the stored XML rows, as the `HashSet` the store hands back,
     * grouped by SQL id.
     */
    method GetSqlIdToXmlElements() returns (r: map<String, set<XmlRow>>)
      ensures xmlRows == [] ==> r == map[]
      ensures forall k :: k in r ==> r[k] != {}
      ensures forall k, x :: k in r && x in r[k] ==> x in xmlRows && x.sqlId == Some(k)
      ensures forall x :: x in xmlRows && x.sqlId.Some? ==>
                x.sqlId.value in r && exists y :: y in r[x.sqlId.value] && Identity(y) == Identity(x)
    {
      var all := XmlHashSet(xmlRows);
      r := GroupBySqlId(all, XmlSqlId);
      forall x | x in all ensures x in xmlRows {
        var j :| FirstOf(xmlRows, j) && xmlRows[j] == x;
      }
      forall x | x in xmlRows && x.sqlId.Some?
        ensures x.sqlId.value in r && exists y :: y in r[x.sqlId.value] && Identity(y) == Identity(x)
      {
        var i :| 0 <= i < |xmlRows| && xmlRows[i] == x;
        HashSetRepresentsEveryRow(xmlRows, all, i);
        var y :| y in all && Identity(y) == Identity(x);
        assert XmlSqlId(y) == x.sqlId;
        assert y in r[x.sqlId.value];
      }
      forall k, x | k in r && x in r[k] ensures x in xmlRows && x.sqlId == Some(k) {
        assert x in all && XmlSqlId(x) == Some(k);
      }
    }

    /** `saveFileDigest`: records the digest of one path. */
    method SaveFileDigest(path: String, digest: String)
      modifies this
      ensures digests == old(digests)[path := digest]
      ensures javaRows == old(javaRows) && xmlRows == old(xmlRows)
    {
      digests := digests[path := digest];
    }

    /** `clearJavaFileCache`: drops the Java rows of one file; its digest stays. */
    method ClearJavaFileCache(path: String)
      modifies this
      ensures javaRows == WithoutPath(old(javaRows), JavaPath, path)
      ensures xmlRows == old(xmlRows) && digests == old(digests)
    {
      javaRows := WithoutPath(javaRows, JavaPath, path);
    }

    /** `clearXmlFileCache`: drops the XML rows of one file; its digest stays. */
    method ClearXmlFileCache(path: String)
      modifies this
      ensures xmlRows == WithoutPath(old(xmlRows), XmlPath, path)
      ensures javaRows == old(javaRows) && digests == old(digests)
    {
      xmlRows := WithoutPath(xmlRows, XmlPath, path);
    }

    /** `removeBySqlIdList`: drops the Java and XML rows of the given SQL ids. */
    method RemoveBySqlIdList(ids: set<String>)
      modifies this
      ensures javaRows == WithoutSqlIds(old(javaRows), JavaSqlId, ids)
      ensures xmlRows == WithoutSqlIds(old(xmlRows), XmlSqlId, ids)
      ensures digests == old(digests)
    {
      if ids == {} {
        WithoutNoSqlIds(javaRows, JavaSqlId);
        WithoutNoSqlIds(xmlRows, XmlSqlId);
        return;
      }
      javaRows := WithoutSqlIds(javaRows, JavaSqlId, ids);
      xmlRows := WithoutSqlIds(xmlRows, XmlSqlId, ids);
      assert javaRows == WithoutSqlIds(old(javaRows), JavaSqlId, ids);
    }

    /**
     * `clearCache`: XML clears the XML rows, JAVA the Java rows, JAVA_METHOD_CALL the Java
     * method-call rows, and ALL every row and every digest.
     */
    method ClearCache(range: RefreshRange)
      modifies this
      ensures range == Xml ==> xmlRows == [] && javaRows == old(javaRows) && digests == old(digests)
      ensures range == Java ==> javaRows == [] && xmlRows == old(xmlRows) && digests == old(digests)
      ensures range == JavaMethodCall ==>
                javaRows == WithoutMethodCalls(old(javaRows)) && xmlRows == old(xmlRows) && digests == old(digests)
      ensures range == All ==> javaRows == [] && xmlRows == [] && digests == map[]
    {
      match range {
        case Xml => xmlRows := [];
        case Java => javaRows := [];
        case JavaMethodCall => javaRows := WithoutMethodCalls(javaRows);
        case All =>
          javaRows := [];
          xmlRows := [];
          digests := map[];
      }
    }

    function CountFileDigestTable(): nat
      reads this
    {
      |digests|
    }

    function CountElementJavaTable(): nat
      reads this
    {
      |javaRows|
    }

    function CountElementXmlTable(): nat
      reads this
    {
      |xmlRows|
    }

    function CountElementJavaTableByMethodCall(): nat
      reads this
    {
      |MethodCalls(javaRows)|
    }
  }
}
