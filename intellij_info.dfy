/**
 * The older cache records: where a mapper tag or a Java element sits, by file path, line number
 * and an optional XPath-like locator (None stands for a null xpath).
 */
module IntellijInfo {
  import opened Wrappers
  import opened JavaText
  import opened InfoOrder

  /** `Objects.hashCode` of a nullable string: 0 for null. */
  function NullableHash(s: Option<String>): int
  {
    if s.None? then 0 else StringHash(s.value)
  }

  /** A mapper-XML tag record. */
  class XmlElementInfo {
    var filePath: String
    var lineNumber: int
    var tagName: String
    var sqlId: String
    var xpath: Option<String>

    constructor(filePath: String, lineNumber: int, tagName: String, sqlId: String, xpath: Option<String>)
      ensures this.filePath == filePath && this.lineNumber == lineNumber && this.tagName == tagName
      ensures this.sqlId == sqlId && this.xpath == xpath
    {
      this.filePath := filePath;
      this.lineNumber := lineNumber;
      this.tagName := tagName;
      this.sqlId := sqlId;
      this.xpath := xpath;
    }

    method SetXpath(v: String)
      modifies this
      ensures xpath == Some(v) && filePath == old(filePath) && lineNumber == old(lineNumber)
      ensures tagName == old(tagName) && sqlId == old(sqlId)
    {
      xpath := Some(v);
    }

    method SetFilePath(v: String)
      modifies this
      ensures filePath == v && lineNumber == old(lineNumber) && tagName == old(tagName)
      ensures sqlId == old(sqlId) && xpath == old(xpath)
    {
      filePath := v;
    }

    method SetLineNumber(v: int)
      modifies this
      ensures lineNumber == v && filePath == old(filePath) && tagName == old(tagName)
      ensures sqlId == old(sqlId) && xpath == old(xpath)
    {
      lineNumber := v;
    }

    method SetTagName(v: String)
      modifies this
      ensures tagName == v && filePath == old(filePath) && lineNumber == old(lineNumber)
      ensures sqlId == old(sqlId) && xpath == old(xpath)
    {
      tagName := v;
    }

    method SetSqlId(v: String)
      modifies this
      ensures sqlId == v && filePath == old(filePath) && lineNumber == old(lineNumber)
      ensures tagName == old(tagName) && xpath == old(xpath)
    {
      sqlId := v;
    }

    function Key(): LineKey
      reads this
    {
      LineKey(filePath, xpath, lineNumber)
    }

    /** `equals`: line, path, tag name, SQL id and (null-safely) xpath agree. */
    predicate Equals(that: XmlElementInfo)
      reads this, that
      ensures Equals(that) ==> HashCode() == that.HashCode() && CompareTo(that) == 0
    {
      lineNumber == that.lineNumber && filePath == that.filePath && tagName == that.tagName
      && sqlId == that.sqlId && xpath == that.xpath
    }

    /** `Objects.hash(filePath, lineNumber, tagName, sqlId, xpath)`. */
    function HashCode(): int
      reads this
    {
      HashAll([StringHash(filePath), lineNumber, StringHash(tagName), StringHash(sqlId), NullableHash(xpath)])
    }

    function CompareTo(that: XmlElementInfo): int
      reads this, that
    {
      CompareLine(Key(), that.Key())
    }
  }

  /** A Java element record. */
  class JavaElementInfo {
    var filePath: String
    var lineNumber: int
    var elementType: String
    var sqlId: String
    var xpath: Option<String>

    constructor(filePath: String, lineNumber: int, elementType: String, sqlId: String, xpath: Option<String>)
      ensures this.filePath == filePath && this.lineNumber == lineNumber && this.elementType == elementType
      ensures this.sqlId == sqlId && this.xpath == xpath
    {
      this.filePath := filePath;
      this.lineNumber := lineNumber;
      this.elementType := elementType;
      this.sqlId := sqlId;
      this.xpath := xpath;
    }

    method SetXpath(v: String)
      modifies this
      ensures xpath == Some(v) && filePath == old(filePath) && lineNumber == old(lineNumber)
      ensures elementType == old(elementType) && sqlId == old(sqlId)
    {
      xpath := Some(v);
    }

    method SetFilePath(v: String)
      modifies this
      ensures filePath == v && lineNumber == old(lineNumber) && elementType == old(elementType)
      ensures sqlId == old(sqlId) && xpath == old(xpath)
    {
      filePath := v;
    }

    method SetLineNumber(v: int)
      modifies this
      ensures lineNumber == v && filePath == old(filePath) && elementType == old(elementType)
      ensures sqlId == old(sqlId) && xpath == old(xpath)
    {
      lineNumber := v;
    }

    method SetElementType(v: String)
      modifies this
      ensures elementType == v && filePath == old(filePath) && lineNumber == old(lineNumber)
      ensures sqlId == old(sqlId) && xpath == old(xpath)
    {
      elementType := v;
    }

    method SetSqlId(v: String)
      modifies this
      ensures sqlId == v && filePath == old(filePath) && lineNumber == old(lineNumber)
      ensures elementType == old(elementType) && xpath == old(xpath)
    {
      sqlId := v;
    }

    function Key(): LineKey
      reads this
    {
      LineKey(filePath, xpath, lineNumber)
    }

    /** `equals`: line, path, element type, SQL id and (null-safely) xpath agree. */
    predicate Equals(that: JavaElementInfo)
      reads this, that
      ensures Equals(that) ==> HashCode() == that.HashCode() && CompareTo(that) == 0
    {
      lineNumber == that.lineNumber && filePath == that.filePath && elementType == that.elementType
      && sqlId == that.sqlId && xpath == that.xpath
    }

    /** `Objects.hash(filePath, lineNumber, elementType, sqlId, xpath)`. */
    function HashCode(): int
      reads this
    {
      HashAll([StringHash(filePath), lineNumber, StringHash(elementType), StringHash(sqlId), NullableHash(xpath)])
    }

    function CompareTo(that: JavaElementInfo): int
      reads this, that
    {
      CompareLine(Key(), that.Key())
    }
  }

  /** Records with xpaths are ordered lexicographically by (path, xpath, line): antisymmetric and transitive. */
  lemma XmlCompareToWithXPaths(a: XmlElementInfo, b: XmlElementInfo, c: XmlElementInfo)
    requires a.xpath.Some? && b.xpath.Some? && c.xpath.Some?
    ensures a.CompareTo(b) == -b.CompareTo(a)
    ensures a.CompareTo(b) < 0 && b.CompareTo(c) < 0 ==> a.CompareTo(c) < 0
  {
    CompareLineAntisymmetric(a.Key(), b.Key());
    if a.CompareTo(b) < 0 && b.CompareTo(c) < 0 {
      CompareLineTransitiveWithXPaths(a.Key(), b.Key(), c.Key());
    }
  }

  lemma JavaCompareToWithXPaths(a: JavaElementInfo, b: JavaElementInfo, c: JavaElementInfo)
    requires a.xpath.Some? && b.xpath.Some? && c.xpath.Some?
    ensures a.CompareTo(b) == -b.CompareTo(a)
    ensures a.CompareTo(b) < 0 && b.CompareTo(c) < 0 ==> a.CompareTo(c) < 0
  {
    CompareLineAntisymmetric(a.Key(), b.Key());
    if a.CompareTo(b) < 0 && b.CompareTo(c) < 0 {
      CompareLineTransitiveWithXPaths(a.Key(), b.Key(), c.Key());
    }
  }

  /** When either xpath is missing, the line number alone decides within one file. */
  lemma XmlCompareToSkipsMissingXPath(a: XmlElementInfo, b: XmlElementInfo)
    requires a.filePath == b.filePath && (a.xpath.None? || b.xpath.None?)
    ensures a.CompareTo(b) == IntCompare(a.lineNumber, b.lineNumber)
  {
    CompareZeroIffEqual(a.filePath, b.filePath);
  }
}
