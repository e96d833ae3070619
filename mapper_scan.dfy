/**
 * The scan loops both mapper-XML parsers run over the root's direct sub-tags, proved against
 * the maps `MapperParse` defines.
 */
module MapperScan {
  import opened Wrappers
  import opened JavaText
  import opened XmlStructure
  import opened Multimap
  import opened MapperParse

  /**
   * The inner loop of `parseXmlFileDirectly` for one statement kind: each sub-tag named `kind`
   * with a non-blank id is appended, in document order, to the list under its trimmed id.
   */
  method AddStatementsOfKind(cs: seq<SubTag>, kind: String, m0: map<String, seq<nat>>, ghost before: seq<Entry>)
    returns (m: map<String, seq<nat>>)
    requires m0 == Group(before + KindEntries(cs, kind, 0, true))
    ensures m == Group(before + KindEntries(cs, kind, |cs|, true))
  {
    m := m0;
    for i := 0 to |cs|
      invariant m == Group(before + KindEntries(cs, kind, i, true))
    {
      GroupScanStep(before, cs, kind, i, true);
      var tag := cs[i];
      if tag.name != kind || tag.id.None? {
        continue;
      }
      var sqlId := Trim(tag.id.value);
      if sqlId == [] {
        continue;
      }
      assert KeyOf(tag, true) == Some(sqlId);
      m := m[sqlId := (if sqlId in m then m[sqlId] else []) + [i]];
    }
  }

  /** The statement loops: kind by kind in `STATEMENT_TAGS` order, each kind's tags in document order. */
  method CollectStatements(cs: seq<SubTag>) returns (statementMap: map<String, seq<nat>>)
    ensures statementMap == Group(StatementEntries(cs))
  {
    statementMap := map[];
    for q := 0 to |StatementTags|
      invariant statementMap == Group(KindsEntries(cs, StatementTags[..q], true))
    {
      var statementTag := StatementTags[q];
      ghost var before := KindsEntries(cs, StatementTags[..q], true);
      assert before + KindEntries(cs, statementTag, 0, true) == before;
      statementMap := AddStatementsOfKind(cs, statementTag, statementMap, before);
      assert StatementTags[..q + 1] == StatementTags[..q] + [statementTag];
      KindsEntriesSnoc(cs, StatementTags[..q], statementTag, true);
    }
    assert StatementTags[..|StatementTags|] == StatementTags;
  }

  /**
   * The sql-fragment and resultMap loops: each sub-tag named `kind` with an id is put under its
   * trimmed id, a later one replacing an earlier one; with `skipBlank` a blank id is skipped.
   */
  method PutById(cs: seq<SubTag>, kind: String, skipBlank: bool) returns (m: map<String, nat>)
    ensures m == LastWins(KindEntries(cs, kind, |cs|, skipBlank))
  {
    m := map[];
    for i := 0 to |cs|
      invariant m == LastWins(KindEntries(cs, kind, i, skipBlank))
    {
      LastWinsScanStep(cs, kind, i, skipBlank);
      var tag := cs[i];
      if tag.name == kind && tag.id.Some? {
        var sqlId := Trim(tag.id.value);
        if !skipBlank || sqlId != [] {
          m := m[sqlId := i];
        }
      }
    }
  }
}
