/**
 * `MyBatisXmlStructure`: the tag and attribute vocabulary of a MyBatis mapper file.
 */
module XmlStructure {
  import opened JavaText

  const MapperTag: String := "mapper"
  const SelectTag: String := "select"
  const InsertTag: String := "insert"
  const UpdateTag: String := "update"
  const DeleteTag: String := "delete"
  const SqlTag: String := "sql"
  const ResultMapTag: String := "resultMap"
  const ResultTag: String := "result"
  const IdTag: String := "id"
  const CollectionTag: String := "collection"
  const AssociationTag: String := "association"
  const ParameterMapTag: String := "parameterMap"
  const ParameterTag: String := "parameter"
  const CacheTag: String := "cache"
  const CacheRefTag: String := "cache-ref"

  /** `STATEMENT_TAGS`, in declaration order. */
  const StatementTags: seq<String> := [SelectTag, InsertTag, UpdateTag, DeleteTag]

  const CommonStatementAttributes: set<String> :=
    {"id", "parameterType", "parameterMap", "resultType", "resultMap", "timeout", "fetchSize",
     "statementType", "resultSetType", "flushCache", "useCache", "databaseId", "lang"}
  const InsertSpecificAttributes: set<String> := {"useGeneratedKeys", "keyProperty", "keyColumn", "keyGenerator", "resultSets"}
  const UpdateSpecificAttributes: set<String> := {"flushCache"}
  const DeleteSpecificAttributes: set<String> := {"flushCache"}
  const SelectSpecificAttributes: set<String> := {"useCache", "resultOrdered", "resultSets"}

  /** `isStatementTag`: a case-sensitive test against the four statement tags. */
  predicate IsStatementTag(tagName: String)
  {
    tagName == SelectTag || tagName == InsertTag || tagName == UpdateTag || tagName == DeleteTag
  }

  /** `isSupportedTag` */
  predicate IsSupportedTag(tagName: String)
  {
    tagName == MapperTag || IsStatementTag(tagName) || tagName == SqlTag || tagName == ResultMapTag ||
    tagName == ParameterMapTag || tagName == CacheTag || tagName == CacheRefTag
  }

  /** The statement tags listed in `STATEMENT_TAGS` are exactly those `isStatementTag` accepts. */
  lemma StatementTagsListed(tagName: String)
    ensures IsStatementTag(tagName) <==> tagName in StatementTags
    ensures |StatementTags| == 4
    ensures IsStatementTag(tagName) ==> IsSupportedTag(tagName)
  {
  }

  /** Tags that appear inside a result map or parameter map are not supported at the top level. */
  lemma NestedTagsUnsupported()
    ensures !IsSupportedTag(ResultTag) && !IsSupportedTag(IdTag) && !IsSupportedTag(CollectionTag)
    ensures !IsSupportedTag(AssociationTag) && !IsSupportedTag(ParameterTag)
    ensures !IsStatementTag("SELECT") && !IsStatementTag(MapperTag)
  {
    assert ResultTag[0] == 'r' && IdTag[0] == 'i' && CollectionTag[0] == 'c' && AssociationTag[0] == 'a';
    assert ParameterTag != ParameterMapTag by { assert |ParameterTag| != |ParameterMapTag|; }
    assert "SELECT"[0] == 'S';
  }

  /** `getStatementAttributes`: the common attributes plus those specific to the tag. */
  function GetStatementAttributes(tagName: String): (r: set<String>)
    ensures CommonStatementAttributes <= r
    ensures tagName == InsertTag ==> r == CommonStatementAttributes + InsertSpecificAttributes
    ensures tagName == SelectTag ==> r == CommonStatementAttributes + SelectSpecificAttributes
    ensures !IsStatementTag(tagName) ==> r == CommonStatementAttributes
  {
    if tagName == InsertTag then CommonStatementAttributes + InsertSpecificAttributes
    else if tagName == UpdateTag then CommonStatementAttributes + UpdateSpecificAttributes
    else if tagName == DeleteTag then CommonStatementAttributes + DeleteSpecificAttributes
    else if tagName == SelectTag then CommonStatementAttributes + SelectSpecificAttributes
    else CommonStatementAttributes
  }

  /** `flushCache` is already common, so update and delete add nothing. */
  lemma UpdateDeleteAttributesAreCommon()
    ensures GetStatementAttributes(UpdateTag) == CommonStatementAttributes
    ensures GetStatementAttributes(DeleteTag) == CommonStatementAttributes
  {
    assert "flushCache" in CommonStatementAttributes;
  }

  /** Insert and select really do add attributes, and only theirs. */
  lemma InsertSelectAttributes()
    ensures "keyProperty" in GetStatementAttributes(InsertTag) && "keyProperty" !in GetStatementAttributes(SelectTag)
    ensures "resultOrdered" in GetStatementAttributes(SelectTag) && "resultOrdered" !in GetStatementAttributes(InsertTag)
    ensures "resultSets" in GetStatementAttributes(InsertTag) && "resultSets" in GetStatementAttributes(SelectTag)
    ensures "resultSets" !in GetStatementAttributes(UpdateTag)
  {
    UpdateDeleteAttributesAreCommon();
    assert "keyProperty" !in CommonStatementAttributes + SelectSpecificAttributes;
    assert "resultOrdered" !in CommonStatementAttributes + InsertSpecificAttributes;
    assert "resultSets" !in CommonStatementAttributes;
  }
}
