/**
 * The older mapper-XML parser: `parse` memoises one result per file path, rejects a file that is
 * not a valid mapper with an IllegalArgumentException, and fills the result's maps from the
 * root's direct sub-tags. Unlike the newer parser it files a resultMap tag under an empty id.
 */
module IntellijXmlParser {
  import opened Wrappers
  import opened JavaText
  import opened XmlStructure
  import opened Multimap
  import opened MapperParse
  import opened MapperScan

  /** The sub-tags `parseXmlFileDirectly` reads: none without a root tag. */
  function ParsedChildren(f: MapperFile): seq<SubTag>
    requires f.document.Some?
  {
    if f.document.value.None? then [] else f.document.value.value.children
  }

  /** `DefaultBatisParseResult`: the file and the three maps built from it. */
  class ParseResult {
    var file: MapperFile
    var statementMap: map<String, seq<nat>>
    var sqlFragmentMap: map<String, nat>
    var resultMap: map<String, nat>

    /** Statements grouped by id, the last sql tag per non-blank id, the last resultMap tag per trimmed id. */
    ghost predicate Valid()
      reads this
    {
      file.document.Some?
      && var cs := ParsedChildren(file);
      statementMap == Group(StatementEntries(cs))
      && sqlFragmentMap == LastWins(KindEntries(cs, SqlTag, |cs|, true))
      && resultMap == LastWins(KindEntries(cs, ResultMapTag, |cs|, false))
    }

    /** The source dereferences the XML document unconditionally, so it must exist. */
    constructor(file: MapperFile)
      requires file.document.Some?
      ensures this.file == file && Valid()
    {
      this.file := file;
      statementMap, sqlFragmentMap, resultMap := map[], map[], map[];
      new;
      ParseXmlFileDirectly();
    }

    /**
     * Fills the maps from the root's sub-tags: statements and sql fragments skip a missing or
     * blank id, resultMap tags skip only a missing one.
     */
    method ParseXmlFileDirectly()
      requires file.document.Some?
      requires statementMap == map[] && sqlFragmentMap == map[] && resultMap == map[]
      modifies this
      ensures file == old(file) && Valid()
    {
      NoChildrenNoEntries(StatementTags, SqlTag, true);
      NoChildrenNoEntries(StatementTags, ResultMapTag, false);
      if file.document.value.Some? {
        var cs := file.document.value.value.children;
        statementMap := CollectStatements(cs);
        sqlFragmentMap := PutById(cs, SqlTag, true);
        resultMap := PutById(cs, ResultMapTag, false);
      }
    }

    /** `getStatementById`: None (Java's null) for an unknown id, the stored list otherwise. */
    function GetStatementById(id: String): (r: Option<seq<nat>>)
      requires Valid()
      reads this
      ensures r.None? <==> forall i :: !IsStatementFor(ParsedChildren(file), id, i)
      ensures r.Some? ==> r.value != [] && forall i :: i in r.value <==> IsStatementFor(ParsedChildren(file), id, i)
    {
      var cs := ParsedChildren(file);
      StatementIndices(cs, id);
      GroupIsGrouping(StatementEntries(cs));
      ValuesOfNonEmpty(StatementEntries(cs), id);
      if id in statementMap then Some(statementMap[id]) else None
    }
  }

  const InvalidFileMessage: String := "不是有效的MyBatis XML文件: "

  /**
   * The parser and its result cache. The source keeps the cache in a static map shared by every
   * parser instance; here it is the field of the one parser.
   */
  class DefaultMyBatisXmlParser {
    var cache: map<String, ParseResult>

    constructor()
      ensures cache == map[]
    {
      cache := map[];
    }

    /**
     * `parse`: a NullPointerException (nothing cached) for a file without a virtual file, whose
     * path it reads first; then the cached result for the path if there is one, whatever the file
     * now holds; otherwise an error (nothing cached) for an invalid file, or a fresh result after
     * the structure check, cached under the path.
     */
    method Parse(file: MapperFile) returns (r: Result<ParseResult, ParseError>)
      modifies this
      ensures file.path.None? ==> r == Err(NullPointer) && cache == old(cache)
      ensures file.path.Some? && file.path.value in old(cache) ==>
        r == Ok(old(cache)[file.path.value]) && cache == old(cache)
      ensures file.path.Some? && file.path.value !in old(cache) && !IsValidMyBatisFile(file) ==>
        r == Err(IllegalArgument(InvalidFileMessage + file.name)) && cache == old(cache)
      ensures file.path.Some? && file.path.value !in old(cache) && IsValidMyBatisFile(file) ==>
        r.Ok? && fresh(r.value) && r.value.file == file && r.value.Valid()
        && cache == old(cache)[file.path.value := r.value]
    {
      if file.path.None? {
        return Err(NullPointer);
      }
      var path := file.path.value;
      if path in cache {
        return Ok(cache[path]);
      }
      if !IsValidMyBatisFile(file) {
        return Err(IllegalArgument(InvalidFileMessage + file.name));
      }
      var _, _, _ := ValidateMapperStructure(file.document.value.value.children);
      var result := new ParseResult(file);
      cache := cache[path := result];
      return Ok(result);
    }
  }

  /** A resultMap tag whose id is present but blank is filed under the empty id, the last such tag winning. */
  lemma BlankResultMapIdKept(p: ParseResult, i: nat)
    requires p.Valid()
    requires i < |ParsedChildren(p.file)| && ParsedChildren(p.file)[i].name == ResultMapTag
    requires ParsedChildren(p.file)[i].id.Some? && IsBlank(ParsedChildren(p.file)[i].id.value)
    ensures [] in p.resultMap && i <= p.resultMap[[]]
    ensures IsLastOfKind(ParsedChildren(p.file), ResultMapTag, [], p.resultMap[[]], false)
  {
    var cs := ParsedChildren(p.file);
    assert KeyOf(cs[i], false) == Some([]);
    LastTagKeys(cs, ResultMapTag, [], false);
    LastTagWins(cs, ResultMapTag, [], false);
  }

  /** Statements and sql fragments never hold the empty id. */
  lemma NoEmptyStatementOrFragmentKey(p: ParseResult)
    requires p.Valid()
    ensures [] !in p.statementMap && [] !in p.sqlFragmentMap
  {
    var cs := ParsedChildren(p.file);
    StatementKeys(cs, []);
    LastTagKeys(cs, SqlTag, [], true);
  }

  /** A repeated parse of the same path returns the first result, even for a file whose content has changed. */
  method ParseTwice(parser: DefaultMyBatisXmlParser, first: MapperFile, second: MapperFile)
    returns (r1: Result<ParseResult, ParseError>, r2: Result<ParseResult, ParseError>)
    requires first.path == second.path
    modifies parser
    ensures r1.Ok? ==> r2 == r1
    ensures r1 == Err(NullPointer) <==> first.path.None?
    ensures r1.Err? && first.path.Some? ==> r1 == Err(IllegalArgument(InvalidFileMessage + first.name))
  {
    r1 := parser.Parse(first);
    r2 := parser.Parse(second);
  }
}
