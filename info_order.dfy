/**
 * The orderings the element-info records implement through `Comparable.compareTo`.
 * The newer records are ordered by (filePath, startOffset, endOffset); the older ones by
 * (filePath, xpath, lineNumber), where a null xpath on either side is skipped.
 */
module InfoOrder {
  import opened Wrappers
  import opened JavaText

  /** What the newer records' `compareTo` looks at. */
  datatype RangeKey = RangeKey(filePath: String, startOffset: int, endOffset: int)

  /** What the older records' `compareTo` looks at; a null xpath is None. */
  datatype LineKey = LineKey(filePath: String, xpath: Option<String>, lineNumber: int)

  /** Path first, then start offset, then end offset. */
  function CompareRange(a: RangeKey, b: RangeKey): (r: int)
    ensures r == 0 <==> a == b
  {
    CompareZeroIffEqual(a.filePath, b.filePath);
    var c := Compare(a.filePath, b.filePath);
    if c != 0 then c
    else if a.startOffset != b.startOffset then IntCompare(a.startOffset, b.startOffset)
    else IntCompare(a.endOffset, b.endOffset)
  }

  lemma CompareRangeAntisymmetric(a: RangeKey, b: RangeKey)
    ensures CompareRange(a, b) == -CompareRange(b, a)
  {
    CompareAntisymmetric(a.filePath, b.filePath);
  }

  lemma CompareRangeTransitive(a: RangeKey, b: RangeKey, c: RangeKey)
    requires CompareRange(a, b) < 0 && CompareRange(b, c) < 0
    ensures CompareRange(a, c) < 0
  {
    CompareZeroIffEqual(a.filePath, b.filePath);
    CompareZeroIffEqual(b.filePath, c.filePath);
    CompareZeroIffEqual(a.filePath, c.filePath);
    if Compare(a.filePath, b.filePath) < 0 && Compare(b.filePath, c.filePath) < 0 {
      CompareTransitive(a.filePath, b.filePath, c.filePath);
    }
  }

  /** Path first; then the xpaths, but only when both are present; then the line number. */
  function CompareLine(a: LineKey, b: LineKey): (r: int)
    ensures r == 0 ==> a.filePath == b.filePath && a.lineNumber == b.lineNumber
    ensures a == b ==> r == 0
  {
    CompareZeroIffEqual(a.filePath, b.filePath);
    var c := Compare(a.filePath, b.filePath);
    if c != 0 then c
    else if a.xpath.Some? && b.xpath.Some? && Compare(a.xpath.value, b.xpath.value) != 0 then
      CompareZeroIffEqual(a.xpath.value, b.xpath.value);
      Compare(a.xpath.value, b.xpath.value)
    else IntCompare(a.lineNumber, b.lineNumber)
  }

  lemma CompareLineAntisymmetric(a: LineKey, b: LineKey)
    ensures CompareLine(a, b) == -CompareLine(b, a)
  {
    CompareAntisymmetric(a.filePath, b.filePath);
    if a.xpath.Some? && b.xpath.Some? {
      CompareAntisymmetric(a.xpath.value, b.xpath.value);
    }
  }

  /** Among keys that all carry an xpath, the order is transitive. */
  lemma CompareLineTransitiveWithXPaths(a: LineKey, b: LineKey, c: LineKey)
    requires a.xpath.Some? && b.xpath.Some? && c.xpath.Some?
    requires CompareLine(a, b) < 0 && CompareLine(b, c) < 0
    ensures CompareLine(a, c) < 0
  {
    StringOrderStep(a.filePath, b.filePath, c.filePath);
    StringOrderStep(a.xpath.value, b.xpath.value, c.xpath.value);
    CompareZeroIffEqual(a.filePath, b.filePath);
    CompareZeroIffEqual(b.filePath, c.filePath);
  }

  /** Lexicographic step shared by both orders: from a <= b and b <= c, at least one strict, a < c. */
  lemma StringOrderStep(a: String, b: String, c: String)
    ensures Compare(a, b) <= 0 && Compare(b, c) < 0 ==> Compare(a, c) < 0
    ensures Compare(a, b) < 0 && Compare(b, c) <= 0 ==> Compare(a, c) < 0
    ensures Compare(a, b) == 0 && Compare(b, c) == 0 ==> Compare(a, c) == 0
    ensures Compare(a, b) == 0 ==> Compare(a, c) == Compare(b, c)
    ensures Compare(b, c) == 0 ==> Compare(a, c) == Compare(a, b)
  {
    CompareZeroIffEqual(a, b);
    CompareZeroIffEqual(b, c);
    CompareZeroIffEqual(a, c);
    if Compare(a, b) < 0 && Compare(b, c) < 0 {
      CompareTransitive(a, b, c);
    }
  }

  /**
   * Three keys in one file that form a cycle: a < b and b < c by line number, because b has no
   * xpath, yet c < a by xpath.
   */
  lemma CompareLineCycle()
    ensures var a := LineKey("m.xml", Some("b"), 1);
            var b := LineKey("m.xml", None, 2);
            var c := LineKey("m.xml", Some("a"), 3);
            CompareLine(a, b) < 0 && CompareLine(b, c) < 0 && CompareLine(a, c) > 0
  {
    var a := LineKey("m.xml", Some("b"), 1);
    var c := LineKey("m.xml", Some("a"), 3);
    assert Compare("m.xml", "m.xml") == 0 by { CompareZeroIffEqual("m.xml", "m.xml"); }
    assert Compare("b", "a") == 1 by {
      assert "b"[0] != "a"[0];
    }
    assert CompareLine(a, c) == 1;
  }

  /**
   * The corrected older order: a null xpath sorts before every present one instead of being
   * skipped, so the xpath component is always compared.
   */
  function CompareLineNullsFirst(a: LineKey, b: LineKey): (r: int)
    ensures r == 0 <==> a == b
  {
    CompareZeroIffEqual(a.filePath, b.filePath);
    var c := Compare(a.filePath, b.filePath);
    var x := CompareXPath(a.xpath, b.xpath);
    if c != 0 then c
    else if x != 0 then x
    else IntCompare(a.lineNumber, b.lineNumber)
  }

  /** Null first, then `String.compareTo`. */
  function CompareXPath(a: Option<String>, b: Option<String>): (r: int)
    ensures r == 0 <==> a == b
  {
    match (a, b)
    case (None, None) => 0
    case (None, Some(_)) => -1
    case (Some(_), None) => 1
    case (Some(x), Some(y)) =>
      CompareZeroIffEqual(x, y);
      Compare(x, y)
  }

  lemma CompareXPathAntisymmetric(a: Option<String>, b: Option<String>)
    ensures CompareXPath(a, b) == -CompareXPath(b, a)
  {
    if a.Some? && b.Some? { CompareAntisymmetric(a.value, b.value); }
  }

  lemma CompareXPathStep(a: Option<String>, b: Option<String>, c: Option<String>)
    ensures CompareXPath(a, b) <= 0 && CompareXPath(b, c) < 0 ==> CompareXPath(a, c) < 0
    ensures CompareXPath(a, b) < 0 && CompareXPath(b, c) <= 0 ==> CompareXPath(a, c) < 0
  {
    if a.Some? && b.Some? && c.Some? {
      StringOrderStep(a.value, b.value, c.value);
    }
  }

  lemma CompareLineNullsFirstAntisymmetric(a: LineKey, b: LineKey)
    ensures CompareLineNullsFirst(a, b) == -CompareLineNullsFirst(b, a)
  {
    CompareAntisymmetric(a.filePath, b.filePath);
    CompareXPathAntisymmetric(a.xpath, b.xpath);
  }

  lemma CompareLineNullsFirstTransitive(a: LineKey, b: LineKey, c: LineKey)
    requires CompareLineNullsFirst(a, b) < 0 && CompareLineNullsFirst(b, c) < 0
    ensures CompareLineNullsFirst(a, c) < 0
  {
    StringOrderStep(a.filePath, b.filePath, c.filePath);
    CompareZeroIffEqual(a.filePath, b.filePath);
    CompareZeroIffEqual(b.filePath, c.filePath);
    CompareXPathStep(a.xpath, b.xpath, c.xpath);
  }

  /** Where both xpaths are present the corrected order agrees with the one as written. */
  lemma CompareLineNullsFirstAgrees(a: LineKey, b: LineKey)
    requires a.xpath.Some? && b.xpath.Some?
    ensures CompareLineNullsFirst(a, b) == CompareLine(a, b)
  {
  }
}
