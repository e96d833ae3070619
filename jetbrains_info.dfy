/**
 * The newer cache records: where a mapper tag or a Java element sits, by file path and
 * character offsets, and the SQL id it belongs to.
 */
module JetbrainsInfo {
  import opened Wrappers
  import opened JavaText
  import opened InfoOrder

  /** A mapper-XML tag record; `databaseId` is stored but takes no part in equality or order. */
  class XmlElementInfo {
    var filePath: String
    var startOffset: int
    var endOffset: int
    var tagName: String
    var sqlId: String
    var databaseId: String

    constructor(filePath: String, startOffset: int, endOffset: int, tagName: String, sqlId: String, databaseId: String)
      ensures this.filePath == filePath && this.startOffset == startOffset && this.endOffset == endOffset
      ensures this.tagName == tagName && this.sqlId == sqlId && this.databaseId == databaseId
    {
      this.filePath := filePath;
      this.startOffset := startOffset;
      this.endOffset := endOffset;
      this.tagName := tagName;
      this.sqlId := sqlId;
      this.databaseId := databaseId;
    }

    method SetFilePath(v: String)
      modifies this
      ensures filePath == v && startOffset == old(startOffset) && endOffset == old(endOffset)
      ensures tagName == old(tagName) && sqlId == old(sqlId) && databaseId == old(databaseId)
    {
      filePath := v;
    }

    method SetStartOffset(v: int)
      modifies this
      ensures startOffset == v && filePath == old(filePath) && endOffset == old(endOffset)
      ensures tagName == old(tagName) && sqlId == old(sqlId) && databaseId == old(databaseId)
    {
      startOffset := v;
    }

    method SetEndOffset(v: int)
      modifies this
      ensures endOffset == v && filePath == old(filePath) && startOffset == old(startOffset)
      ensures tagName == old(tagName) && sqlId == old(sqlId) && databaseId == old(databaseId)
    {
      endOffset := v;
    }

    method SetTagName(v: String)
      modifies this
      ensures tagName == v && filePath == old(filePath) && startOffset == old(startOffset)
      ensures endOffset == old(endOffset) && sqlId == old(sqlId) && databaseId == old(databaseId)
    {
      tagName := v;
    }

    method SetSqlId(v: String)
      modifies this
      ensures sqlId == v && filePath == old(filePath) && startOffset == old(startOffset)
      ensures endOffset == old(endOffset) && tagName == old(tagName) && databaseId == old(databaseId)
    {
      sqlId := v;
    }

    method SetDatabaseId(v: String)
      modifies this
      ensures databaseId == v && filePath == old(filePath) && startOffset == old(startOffset)
      ensures endOffset == old(endOffset) && tagName == old(tagName) && sqlId == old(sqlId)
    {
      databaseId := v;
    }

    function Key(): RangeKey
      reads this
    {
      RangeKey(filePath, startOffset, endOffset)
    }

    /** `equals`: offsets, path, tag name and SQL id agree. */
    predicate Equals(that: XmlElementInfo)
      reads this, that
      ensures Equals(that) ==> HashCode() == that.HashCode() && CompareTo(that) == 0
    {
      startOffset == that.startOffset && endOffset == that.endOffset && filePath == that.filePath
      && tagName == that.tagName && sqlId == that.sqlId
    }

    /** `Objects.hash(filePath, startOffset, endOffset, tagName, sqlId)`. */
    function HashCode(): int
      reads this
    {
      HashAll([StringHash(filePath), startOffset, endOffset, StringHash(tagName), StringHash(sqlId)])
    }

    function CompareTo(that: XmlElementInfo): int
      reads this, that
    {
      CompareRange(Key(), that.Key())
    }
  }

  /** A Java element record. */
  class JavaElementInfo {
    var filePath: String
    var startOffset: int
    var endOffset: int
    var elementType: String
    var sqlId: String

    constructor(filePath: String, startOffset: int, endOffset: int, elementType: String, sqlId: String)
      ensures this.filePath == filePath && this.startOffset == startOffset && this.endOffset == endOffset
      ensures this.elementType == elementType && this.sqlId == sqlId
    {
      this.filePath := filePath;
      this.startOffset := startOffset;
      this.endOffset := endOffset;
      this.elementType := elementType;
      this.sqlId := sqlId;
    }

    method SetFilePath(v: String)
      modifies this
      ensures filePath == v && startOffset == old(startOffset) && endOffset == old(endOffset)
      ensures elementType == old(elementType) && sqlId == old(sqlId)
    {
      filePath := v;
    }

    method SetStartOffset(v: int)
      modifies this
      ensures startOffset == v && filePath == old(filePath) && endOffset == old(endOffset)
      ensures elementType == old(elementType) && sqlId == old(sqlId)
    {
      startOffset := v;
    }

    method SetEndOffset(v: int)
      modifies this
      ensures endOffset == v && filePath == old(filePath) && startOffset == old(startOffset)
      ensures elementType == old(elementType) && sqlId == old(sqlId)
    {
      endOffset := v;
    }

    method SetElementType(v: String)
      modifies this
      ensures elementType == v && filePath == old(filePath) && startOffset == old(startOffset)
      ensures endOffset == old(endOffset) && sqlId == old(sqlId)
    {
      elementType := v;
    }

    method SetSqlId(v: String)
      modifies this
      ensures sqlId == v && filePath == old(filePath) && startOffset == old(startOffset)
      ensures endOffset == old(endOffset) && elementType == old(elementType)
    {
      sqlId := v;
    }

    function Key(): RangeKey
      reads this
    {
      RangeKey(filePath, startOffset, endOffset)
    }

    /** `equals`: all five fields agree. */
    predicate Equals(that: JavaElementInfo)
      reads this, that
      ensures Equals(that) ==> HashCode() == that.HashCode() && CompareTo(that) == 0
    {
      startOffset == that.startOffset && endOffset == that.endOffset && filePath == that.filePath
      && elementType == that.elementType && sqlId == that.sqlId
    }

    /** `Objects.hash(filePath, startOffset, endOffset, elementType, sqlId)`. */
    function HashCode(): int
      reads this
    {
      HashAll([StringHash(filePath), startOffset, endOffset, StringHash(elementType), StringHash(sqlId)])
    }

    function CompareTo(that: JavaElementInfo): int
      reads this, that
    {
      CompareRange(Key(), that.Key())
    }
  }

  /** Two tag records that differ only in their database id are equal. */
  lemma XmlEqualsIgnoresDatabaseId(a: XmlElementInfo, b: XmlElementInfo)
    requires a.Key() == b.Key() && a.tagName == b.tagName && a.sqlId == b.sqlId
    ensures a.Equals(b)
  {
  }

  /** `compareTo` returns 0 exactly for records at the same path and offsets, whatever their tag and SQL id. */
  lemma XmlCompareZero(a: XmlElementInfo, b: XmlElementInfo)
    ensures a.CompareTo(b) == 0 <==> a.Key() == b.Key()
    ensures a.CompareTo(b) == 0 && a.sqlId != b.sqlId ==> !a.Equals(b)
  {
  }

  /** The sign of `compareTo` flips with its arguments, and the order is transitive. */
  lemma XmlCompareToIsOrder(a: XmlElementInfo, b: XmlElementInfo, c: XmlElementInfo)
    ensures a.CompareTo(b) == -b.CompareTo(a)
    ensures a.CompareTo(b) < 0 && b.CompareTo(c) < 0 ==> a.CompareTo(c) < 0
  {
    CompareRangeAntisymmetric(a.Key(), b.Key());
    if a.CompareTo(b) < 0 && b.CompareTo(c) < 0 {
      CompareRangeTransitive(a.Key(), b.Key(), c.Key());
    }
  }

  lemma JavaCompareToIsOrder(a: JavaElementInfo, b: JavaElementInfo, c: JavaElementInfo)
    ensures a.CompareTo(b) == -b.CompareTo(a)
    ensures a.CompareTo(b) < 0 && b.CompareTo(c) < 0 ==> a.CompareTo(c) < 0
    ensures a.CompareTo(b) == 0 <==> a.Key() == b.Key()
  {
    CompareRangeAntisymmetric(a.Key(), b.Key());
    if a.CompareTo(b) < 0 && b.CompareTo(c) < 0 {
      CompareRangeTransitive(a.Key(), b.Key(), c.Key());
    }
  }
}
