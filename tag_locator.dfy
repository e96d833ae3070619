/**
 * Locating a cached record's tag or Java element again from its file path and character
 * offsets, the way a bookmark does. The IDE's file system, PSI tree and `TextRange.contains`
 * are parameters: a map from paths to file views, and a containment predicate.
 */
module TagLocator {
  import opened Wrappers
  import opened JavaText
  import opened JetbrainsInfo

  /** A tag's or element's span in its file. */
  datatype TextRange = TextRange(startOffset: int, endOffset: int)
  {
    function Length(): int { endOffset - startOffset }
  }

  /** The Java PSI element found at an offset. */
  datatype PsiElement = PsiElement(range: TextRange, text: String)

  /**
   * What a path resolves to.
   * - `XmlFile`: `descendants` is None when the file has no document or no root tag, and otherwise
   *   the ranges of every tag below the root in the order the PSI tree walk yields them;
   *   `parentTagAt(o)` is None when there is no leaf element at `o`, Some(None) when that leaf
   *   has no enclosing tag, and Some(Some(r)) when its nearest enclosing tag spans `r`.
   * - `JavaFile`: `elementAt(o)` is the leaf element at `o`, if any.
   */
  datatype SourceFile =
    | XmlFile(descendants: Option<seq<TextRange>>, parentTagAt: int -> Option<Option<TextRange>>)
    | JavaFile(elementAt: int -> Option<PsiElement>)
    | OtherFile

  /** Which tag a lookup settled on: the tag enclosing the start offset, or a descendant of the root by index. */
  datatype TagHit = EnclosingTag(range: TextRange) | DescendantTag(index: nat)

  /** A null or blank string. */
  predicate IsEmpty(s: Option<String>)
  {
    s.None? || IsBlank(s.value)
  }

  predicate IsValidOffsetRange(start: int, end: int)
  {
    start >= 0 && end > start
  }

  /** What both `validate*ElementInfo` checks demand of a record. */
  predicate ValidLocation(filePath: String, start: int, end: int)
  {
    !IsEmpty(Some(filePath)) && IsValidOffsetRange(start, end)
  }

  predicate IsExactRangeMatch(range: TextRange, start: int, end: int)
  {
    range.startOffset == start && range.endOffset == end
  }

  /** The tag's range contains both offsets. */
  predicate Encloses(r: TextRange, start: int, end: int, contains: (TextRange, int) -> bool)
  {
    contains(r, start) && contains(r, end)
  }

  /**
   * Index `i` is the innermost enclosing tag: it encloses both offsets, is shorter than
   * `Integer.MAX_VALUE`, is no longer than any other enclosing tag, and every enclosing tag
   * before it is strictly longer.
   */
  predicate IsInnermost(ranges: seq<TextRange>, start: int, end: int, contains: (TextRange, int) -> bool, i: nat)
  {
    i < |ranges| && Encloses(ranges[i], start, end, contains) && ranges[i].Length() < MaxInt
    && (forall j :: 0 <= j < |ranges| && Encloses(ranges[j], start, end, contains) ==> ranges[i].Length() <= ranges[j].Length())
    && (forall j :: 0 <= j < i && Encloses(ranges[j], start, end, contains) ==> ranges[i].Length() < ranges[j].Length())
  }

  /** No enclosing tag is shorter than `Integer.MAX_VALUE`. */
  predicate NoneEncloses(ranges: seq<TextRange>, start: int, end: int, contains: (TextRange, int) -> bool)
  {
    forall j :: 0 <= j < |ranges| && Encloses(ranges[j], start, end, contains) ==> ranges[j].Length() >= MaxInt
  }

  /** The innermost search over the tags in walk order, one tag at a time. */
  function Innermost(ranges: seq<TextRange>, start: int, end: int, contains: (TextRange, int) -> bool): (r: Option<nat>)
    ensures r.Some? ==> IsInnermost(ranges, start, end, contains, r.value)
    ensures r.None? ==> NoneEncloses(ranges, start, end, contains)
    decreases |ranges|
  {
    if ranges == [] then None
    else
      var n := |ranges| - 1;
      var prefix := Innermost(ranges[..n], start, end, contains);
      var smallest := if prefix.Some? then ranges[prefix.value].Length() else MaxInt;
      if Encloses(ranges[n], start, end, contains) && ranges[n].Length() < smallest then Some(n)
      else prefix
  }

  /** At most one index is innermost. */
  lemma InnermostUnique(ranges: seq<TextRange>, start: int, end: int, contains: (TextRange, int) -> bool, i: nat, k: nat)
    requires IsInnermost(ranges, start, end, contains, i) && IsInnermost(ranges, start, end, contains, k)
    ensures i == k
  {
  }

  /** `findInnermostXmlTagContainingRange`: no root gives None, otherwise the innermost enclosing descendant. */
  method FindInnermostXmlTagContainingRange(descendants: Option<seq<TextRange>>, start: int, end: int, contains: (TextRange, int) -> bool)
    returns (best: Option<nat>)
    ensures descendants.None? ==> best.None?
    ensures descendants.Some? ==> best == Innermost(descendants.value, start, end, contains)
  {
    if descendants.None? {
      return None;
    }
    var tags := descendants.value;
    var smallest := MaxInt;
    best := None;
    var k := 0;
    while k < |tags|
      invariant 0 <= k <= |tags|
      invariant best == Innermost(tags[..k], start, end, contains)
      invariant smallest == if best.Some? then tags[best.value].Length() else MaxInt
      invariant best.Some? ==> best.value < k
    {
      assert tags[..k + 1][..k] == tags[..k];
      if contains(tags[k], start) && contains(tags[k], end) {
        var size := tags[k].Length();
        if size < smallest {
          smallest := size;
          best := Some(k);
        }
      }
      k := k + 1;
    }
    assert tags[..k] == tags;
  }

  /** `findXmlTagByRange`: the tag enclosing the start offset when it matches exactly, else the innermost one. */
  function XmlTagByRange(descendants: Option<seq<TextRange>>, parentTagAt: int -> Option<Option<TextRange>>,
                         start: int, end: int, contains: (TextRange, int) -> bool): (r: Option<TagHit>)
  {
    var at := parentTagAt(start);
    if at.None? then None
    else if at.value.Some? && IsExactRangeMatch(at.value.value, start, end) then Some(EnclosingTag(at.value.value))
    else if descendants.None? then None
    else
      var i := Innermost(descendants.value, start, end, contains);
      if i.Some? then Some(DescendantTag(i.value)) else None
  }

  /** `findXmlTagByInfo` on a record's path and offsets. */
  function XmlTagByLocation(filePath: String, start: int, end: int, files: map<String, SourceFile>,
                            contains: (TextRange, int) -> bool): (r: Option<TagHit>)
    ensures r.Some? ==> ValidLocation(filePath, start, end) && filePath in files && files[filePath].XmlFile?
    ensures r.Some? && r.value.EnclosingTag? ==> IsExactRangeMatch(r.value.range, start, end)
    ensures r.Some? && r.value.DescendantTag? ==>
      files[filePath].descendants.Some? && IsInnermost(files[filePath].descendants.value, start, end, contains, r.value.index)
  {
    if !ValidLocation(filePath, start, end) || filePath !in files || !files[filePath].XmlFile? then None
    else XmlTagByRange(files[filePath].descendants, files[filePath].parentTagAt, start, end, contains)
  }

  /** `findXmlTagByRange` as the plugin runs it, with the innermost search as a loop. */
  method FindXmlTagByRange(descendants: Option<seq<TextRange>>, parentTagAt: int -> Option<Option<TextRange>>,
                           start: int, end: int, contains: (TextRange, int) -> bool)
    returns (r: Option<TagHit>)
    ensures r == XmlTagByRange(descendants, parentTagAt, start, end, contains)
  {
    var at := parentTagAt(start);
    if at.None? {
      return None;
    }
    if at.value.Some? && IsExactRangeMatch(at.value.value, start, end) {
      return Some(EnclosingTag(at.value.value));
    }
    var i := FindInnermostXmlTagContainingRange(descendants, start, end, contains);
    r := if i.Some? then Some(DescendantTag(i.value)) else None;
  }

  /** `findXmlTagByInfo`: validate, resolve the path to an XML file, then search by range. */
  method FindXmlTagByInfo(info: XmlElementInfo, files: map<String, SourceFile>, contains: (TextRange, int) -> bool)
    returns (r: Option<TagHit>)
    ensures r == XmlTagByLocation(info.filePath, info.startOffset, info.endOffset, files, contains)
  {
    if !ValidLocation(info.filePath, info.startOffset, info.endOffset) {
      return None;
    }
    if info.filePath !in files || !files[info.filePath].XmlFile? {
      return None;
    }
    var file := files[info.filePath];
    r := FindXmlTagByRange(file.descendants, file.parentTagAt, info.startOffset, info.endOffset, contains);
  }

  /** `findJavaTagByInfo`: validate, resolve the path to a Java file, then take the element at the start offset. */
  function JavaTagByInfo(info: JavaElementInfo, files: map<String, SourceFile>): (r: Option<PsiElement>)
    reads info
    ensures !ValidLocation(info.filePath, info.startOffset, info.endOffset) ==> r.None?
    ensures r.Some? ==> info.filePath in files && files[info.filePath].JavaFile?
    ensures ValidLocation(info.filePath, info.startOffset, info.endOffset) &&
            info.filePath in files && files[info.filePath].JavaFile? ==>
              r == files[info.filePath].elementAt(info.startOffset)
  {
    if !ValidLocation(info.filePath, info.startOffset, info.endOffset) || info.filePath !in files || !files[info.filePath].JavaFile? then None
    else files[info.filePath].elementAt(info.startOffset)
  }

  /** The Java lookup looks only at the path and the start offset, once the range is valid. */
  lemma JavaLookupIgnoresEndAndType(a: JavaElementInfo, b: JavaElementInfo, files: map<String, SourceFile>)
    requires a.filePath == b.filePath && a.startOffset == b.startOffset
    requires IsValidOffsetRange(a.startOffset, a.endOffset) && IsValidOffsetRange(b.startOffset, b.endOffset)
    ensures JavaTagByInfo(a, files) == JavaTagByInfo(b, files)
  {
  }

  /** `createXmlElementInfo`: None without a virtual file, else a record of the tag's path and offsets and the given ids. */
  method CreateXmlElementInfo(tag: TextRange, virtualFilePath: Option<String>, sqlId: String, databaseId: String, elementType: String)
    returns (r: Option<XmlElementInfo>)
    ensures virtualFilePath.None? <==> r.None?
    ensures r.Some? ==> (fresh(r.value) && r.value.filePath == virtualFilePath.value
                         && r.value.startOffset == tag.startOffset && r.value.endOffset == tag.endOffset
                         && r.value.tagName == elementType && r.value.sqlId == sqlId && r.value.databaseId == databaseId)
  {
    if virtualFilePath.None? {
      return None;
    }
    var info := new XmlElementInfo(virtualFilePath.value, tag.startOffset, tag.endOffset, elementType, sqlId, databaseId);
    r := Some(info);
  }

  /** `createJavaElementInfo`: None without a virtual file, else a record of the element's path and offsets and the given ids. */
  method CreateJavaElementInfo(element: TextRange, virtualFilePath: Option<String>, sqlId: String, elementType: String)
    returns (r: Option<JavaElementInfo>)
    ensures virtualFilePath.None? <==> r.None?
    ensures r.Some? ==> (fresh(r.value) && r.value.filePath == virtualFilePath.value
                         && r.value.startOffset == element.startOffset && r.value.endOffset == element.endOffset
                         && r.value.elementType == elementType && r.value.sqlId == sqlId)
  {
    if virtualFilePath.None? {
      return None;
    }
    var info := new JavaElementInfo(virtualFilePath.value, element.startOffset, element.endOffset, elementType, sqlId);
    r := Some(info);
  }

  /**
   * A record made from a tag finds that tag again while the file is unchanged: the leaf at the
   * tag's start offset lies inside that very tag, so the exact match succeeds.
   */
  lemma CreatedLocationFindsTag(filePath: String, tag: TextRange, files: map<String, SourceFile>, contains: (TextRange, int) -> bool)
    requires !IsBlank(filePath) && IsValidOffsetRange(tag.startOffset, tag.endOffset)
    requires filePath in files && files[filePath].XmlFile?
    requires files[filePath].parentTagAt(tag.startOffset) == Some(Some(tag))
    ensures XmlTagByLocation(filePath, tag.startOffset, tag.endOffset, files, contains) == Some(EnclosingTag(tag))
  {
  }

  /** When the exact match fails, an enclosing descendant shorter than `Integer.MAX_VALUE` is always found. */
  lemma InnermostFoundWhenEnclosed(ranges: seq<TextRange>, start: int, end: int, contains: (TextRange, int) -> bool, j: nat)
    requires j < |ranges| && Encloses(ranges[j], start, end, contains) && ranges[j].Length() < MaxInt
    ensures Innermost(ranges, start, end, contains).Some?
  {
  }
}
