/**
 * The newer mapper-XML parser: `parse` turns a valid mapper file into a result whose maps are
 * filled once, by `parseXmlFileDirectly`, from the root's direct sub-tags. Tags are the child
 * positions of `MapperParse`.
 */
module JetbrainsXmlParser {
  import opened Wrappers
  import opened JavaText
  import opened XmlStructure
  import opened Multimap
  import opened MapperParse
  import opened MapperScan

  /**
   * The sub-tags `parseXmlFileDirectly` reads: none when there is no XML document, no root tag or
   * no editor document, the root's children otherwise.
   */
  function ParsedChildren(f: MapperFile): seq<SubTag>
  {
    if f.document.None? || f.document.value.None? || !f.hasTextDocument then []
    else f.document.value.value.children
  }

  /** `DefaultBatisParseResult`: the file and the three maps built from it. */
  class ParseResult {
    var file: MapperFile
    var statementMap: map<String, seq<nat>>
    var sqlFragmentMap: map<String, nat>
    var resultMap: map<String, nat>

    /** The maps hold what the file's sub-tags give: statements grouped by id, the last sql and resultMap tag per id. */
    ghost predicate Valid()
      reads this
    {
      var cs := ParsedChildren(file);
      statementMap == Group(StatementEntries(cs))
      && sqlFragmentMap == LastWins(KindEntries(cs, SqlTag, |cs|, true))
      && resultMap == LastWins(KindEntries(cs, ResultMapTag, |cs|, true))
    }

    /** Only built by `Parse`, after it has read the file's path, which `parseXmlFileDirectly` reads again. */
    constructor(file: MapperFile)
      requires file.path.Some?
      ensures this.file == file && Valid()
    {
      this.file := file;
      statementMap, sqlFragmentMap, resultMap := map[], map[], map[];
      new;
      ParseXmlFileDirectly();
    }

    /**
     * Fills the maps, statement kind by statement kind and then sql and resultMap tags, each in
     * document order; a tag without an id or with a blank one is skipped. `findSubTags(kind)` is
     * the scan over all children that skips the other names.
     */
    method ParseXmlFileDirectly()
      requires statementMap == map[] && sqlFragmentMap == map[] && resultMap == map[]
      modifies this
      ensures file == old(file) && Valid()
    {
      NoChildrenNoEntries(StatementTags, SqlTag, true);
      NoChildrenNoEntries(StatementTags, ResultMapTag, true);
      if file.document.None? || file.document.value.None? || !file.hasTextDocument {
        return;
      }
      var cs := file.document.value.value.children;

      statementMap := CollectStatements(cs);
      sqlFragmentMap := PutById(cs, SqlTag, true);
      resultMap := PutById(cs, ResultMapTag, true);
    }

    /**
     * `getStatementById`: the statement sub-tags whose trimmed id is `id`, select tags first, then
     * insert, update and delete, each kind in document order; the empty list for an unknown id.
     */
    function GetStatementById(id: String): (r: seq<nat>)
      requires Valid()
      reads this
      ensures forall i :: i in r <==> IsStatementFor(ParsedChildren(file), id, i)
      ensures r == [] <==> forall i :: !IsStatementFor(ParsedChildren(file), id, i)
    {
      var cs := ParsedChildren(file);
      StatementIndices(cs, id);
      GroupIsGrouping(StatementEntries(cs));
      ValuesOfNonEmpty(StatementEntries(cs), id);
      if id in statementMap then statementMap[id] else []
    }
  }

  /**
   * `parse`: a NullPointerException for a file without a virtual file, whose path it reads first;
   * otherwise None (Java's null) for a file that is not a valid mapper and a freshly filled result
   * for one that is.
   */
  method Parse(file: MapperFile) returns (r: Result<Option<ParseResult>, ParseError>)
    ensures r.Err? <==> file.path.None?
    ensures r.Err? ==> r.error == NullPointer
    ensures r.Ok? ==> (r.value.None? <==> !IsValidMyBatisFile(file))
    ensures r.Ok? && r.value.Some? ==> fresh(r.value.value) && r.value.value.file == file && r.value.value.Valid()
  {
    if file.path.None? {
      return Err(NullPointer);
    }
    if !IsValidMyBatisFile(file) {
      return Ok(None);
    }
    var result := new ParseResult(file);
    return Ok(Some(result));
  }

  /** Only a trimmed, non-empty id can name a statement: padded or empty ids find nothing. */
  lemma UntrimmedIdFindsNothing(p: ParseResult, id: String)
    requires p.Valid() && (id == [] || Trim(id) != id)
    ensures p.GetStatementById(id) == []
  {
    var cs := ParsedChildren(p.file);
    forall i | 0 <= i < |cs| ensures !IsStatementFor(cs, id, i) {
      KeyIsTrimmed(cs[i], true);
    }
  }

  /** The statement map has a key exactly for each statement sub-tag with a non-blank id, trimmed. */
  lemma StatementMapKeys(p: ParseResult, k: String)
    requires p.Valid()
    ensures k in p.statementMap <==> exists i :: IsStatementFor(ParsedChildren(p.file), k, i)
  {
    var cs := ParsedChildren(p.file);
    StatementKeys(cs, k);
    if k in p.statementMap {
      var i :| 0 <= i < |cs| && IsStatementTag(cs[i].name) && KeyOf(cs[i], true) == Some(k);
      assert IsStatementFor(cs, k, i);
    }
  }

  /** The sql fragment and result maps hold, under each id, the last tag of their kind with that id. */
  lemma FragmentMapsKeepLast(p: ParseResult, k: String)
    requires p.Valid()
    ensures k in p.sqlFragmentMap ==> IsLastOfKind(ParsedChildren(p.file), SqlTag, k, p.sqlFragmentMap[k], true)
    ensures k in p.resultMap ==> IsLastOfKind(ParsedChildren(p.file), ResultMapTag, k, p.resultMap[k], true)
  {
    var cs := ParsedChildren(p.file);
    LastTagWins(cs, SqlTag, k, true);
    LastTagWins(cs, ResultMapTag, k, true);
  }

  /** No map ever holds the empty id: tags with a missing or blank id are skipped everywhere. */
  lemma NoEmptyKeys(p: ParseResult)
    requires p.Valid()
    ensures [] !in p.statementMap && [] !in p.sqlFragmentMap && [] !in p.resultMap
  {
    var cs := ParsedChildren(p.file);
    StatementKeys(cs, []);
    LastTagKeys(cs, SqlTag, [], true);
    LastTagKeys(cs, ResultMapTag, [], true);
  }
}
