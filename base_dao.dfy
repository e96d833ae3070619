/**
 * The row-to-bean mapping of `BaseDao`: database column names in snake_case are turned into
 * camelCase and each column is bound to the first bean property with that name, ignoring case.
 */
module BaseDao {
  import opened Wrappers
  import opened JavaText

  /** `BeanProcessor.PROPERTY_NOT_FOUND` */
  const PropertyNotFound: int := -1

  // ---------------------------------------------------------------- underlineToCamel

  /**
   * The camelCase form of the rest of a name: an underscore is dropped and makes the next
   * character upper case; every other character is copied.
   */
  function CamelFrom(s: String, upperNext: bool): String
  {
    if s == [] then []
    else if s[0] == '_' then CamelFrom(s[1..], true)
    else [if upperNext then ToUpperAscii(s[0]) else s[0]] + CamelFrom(s[1..], false)
  }

  function Camel(s: String): String { CamelFrom(s, false) }

  /** `underlineToCamel`: null and "" come back as they are. */
  method UnderlineToCamel(underlineStr: Option<String>) returns (r: Option<String>)
    ensures underlineStr.None? ==> r.None?
    ensures underlineStr.Some? ==> r == Some(Camel(underlineStr.value))
  {
    if underlineStr.None? || underlineStr.value == [] {
      return underlineStr;
    }
    var s := underlineStr.value;
    var sb: String := [];
    var nextUpperCase := false;
    var i := 0;
    while i < |s|
      invariant 0 <= i <= |s|
      invariant sb + CamelFrom(s[i..], nextUpperCase) == Camel(s)
    {
      var c := s[i];
      assert s[i..][1..] == s[i + 1..];
      if c == '_' {
        nextUpperCase := true;
      } else {
        sb := sb + [if nextUpperCase then ToUpperAscii(c) else c];
        nextUpperCase := false;
      }
      i := i + 1;
    }
    assert CamelFrom(s[i..], nextUpperCase) == [];
    assert sb + [] == sb;
    return Some(sb);
  }

  /** The output has no underscore and is shorter than the input by the number of underscores. */
  lemma {:induction false} CamelDropsUnderscores(s: String, upperNext: bool)
    ensures '_' !in CamelFrom(s, upperNext)
    ensures |CamelFrom(s, upperNext)| == |s| - Count(s, '_')
  {
    if s != [] {
      CamelDropsUnderscores(s[1..], s[0] == '_');
    }
  }

  /** A name without underscores is left as it is. */
  lemma {:induction false} CamelWithoutUnderscore(s: String)
    requires '_' !in s
    ensures Camel(s) == s
  {
    if s != [] {
      CamelWithoutUnderscore(s[1..]);
    }
  }

  /** Converting twice is converting once. */
  lemma CamelIdempotent(s: String)
    ensures Camel(Camel(s)) == Camel(s)
  {
    CamelDropsUnderscores(s, false);
    CamelWithoutUnderscore(Camel(s));
  }

  /** Where the pending flag stands after `a`, starting from `upperNext`. */
  function FlagAfter(a: String, upperNext: bool): bool
  {
    if a == [] then upperNext else a[|a| - 1] == '_'
  }

  /** The conversion works piece by piece: the second piece starts from the flag the first leaves. */
  lemma {:induction false} CamelConcat(a: String, b: String, upperNext: bool)
    ensures CamelFrom(a + b, upperNext) == CamelFrom(a, upperNext) + CamelFrom(b, FlagAfter(a, upperNext))
  {
    if a == [] {
      assert a + b == b;
    } else {
      assert (a + b)[1..] == a[1..] + b;
      CamelConcat(a[1..], b, a[0] == '_');
      if a[1..] != [] {
        assert a[1..][|a[1..]| - 1] == a[|a| - 1];
      }
    }
  }

  /** A run of underscores followed by a character upper-cases that character. */
  lemma UnderscoresThenChar(n: nat, c: char, rest: String, upperNext: bool)
    requires n > 0 && c != '_'
    ensures CamelFrom(seq(n, _ => '_') + [c] + rest, upperNext) == [ToUpperAscii(c)] + CamelFrom(rest, false)
  {
    var u := seq(n, _ => '_');
    assert u + [c] + rest == u + ([c] + rest);
    CamelConcat(u, [c] + rest, upperNext);
    NoCamelOfUnderscores(u, upperNext);
    assert ([c] + rest)[1..] == rest;
  }

  lemma {:induction false} NoCamelOfUnderscores(u: String, upperNext: bool)
    requires forall i :: 0 <= i < |u| ==> u[i] == '_'
    ensures CamelFrom(u, upperNext) == []
  {
    if u != [] {
      NoCamelOfUnderscores(u[1..], true);
    }
  }

  lemma CamelExamples()
    ensures Camel("sql_id") == "sqlId"
  {
  }

  // ---------------------------------------------------------------- mapColumnsToProperties

  /** What `ResultSetMetaData` tells about one column. */
  datatype Column = Column(columnLabel: Option<String>, columnName: String)

  /** The label, unless it is null or empty; then the column name. */
  function ColumnName(c: Column): (r: String)
    ensures c.columnLabel.Some? && c.columnLabel.value != [] ==> r == c.columnLabel.value
    ensures c.columnLabel.None? || c.columnLabel.value == [] ==> r == c.columnName
  {
    if c.columnLabel.None? || c.columnLabel.value == [] then c.columnName else c.columnLabel.value
  }

  /** The index of the first property named `p` ignoring case, or `PropertyNotFound`. */
  function FirstMatchFrom(props: seq<String>, p: String, from: nat): (r: int)
    requires from <= |props|
    ensures r == PropertyNotFound || from <= r < |props|
    ensures r == PropertyNotFound ==> forall j :: from <= j < |props| ==> !EqualsIgnoreCase(p, props[j])
    ensures r != PropertyNotFound ==>
              EqualsIgnoreCase(p, props[r]) && forall j :: from <= j < r ==> !EqualsIgnoreCase(p, props[j])
    decreases |props| - from
  {
    if from == |props| then PropertyNotFound
    else if EqualsIgnoreCase(p, props[from]) then from
    else FirstMatchFrom(props, p, from + 1)
  }

  function FirstMatch(props: seq<String>, p: String): int { FirstMatchFrom(props, p, 0) }

  /** The property bound to column `col` (counted from 1). */
  function PropertyOf(columns: seq<Column>, props: seq<String>, col: nat): int
    requires 1 <= col <= |columns|
  {
    FirstMatch(props, Camel(ColumnName(columns[col - 1])))
  }

  /**
   * `mapColumnsToProperties`: slot `col` of the result holds the index of the first property
   * matching column `col`; slot 0 is unused and holds `PropertyNotFound`.
   */
  method MapColumnsToProperties(columns: seq<Column>, props: seq<String>) returns (columnToProperty: array<int>)
    ensures fresh(columnToProperty)
    ensures columnToProperty.Length == |columns| + 1 && columnToProperty[0] == PropertyNotFound
    ensures forall col :: 1 <= col <= |columns| ==> columnToProperty[col] == PropertyOf(columns, props, col)
  {
    columnToProperty := new int[|columns| + 1](_ => PropertyNotFound);
    var col := 1;
    while col <= |columns|
      invariant 1 <= col <= |columns| + 1
      invariant columnToProperty[0] == PropertyNotFound
      invariant forall k :: 1 <= k < col ==> columnToProperty[k] == PropertyOf(columns, props, k)
      invariant forall k :: col <= k <= |columns| ==> columnToProperty[k] == PropertyNotFound
    {
      var columnName := ColumnName(columns[col - 1]);
      var propertyName := UnderlineToCamel(Some(columnName));
      var i := 0;
      while i < |props|
        invariant 0 <= i <= |props|
        invariant columnToProperty[0] == PropertyNotFound && columnToProperty[col] == PropertyNotFound
        invariant forall k :: 1 <= k < col ==> columnToProperty[k] == PropertyOf(columns, props, k)
        invariant forall k :: col < k <= |columns| ==> columnToProperty[k] == PropertyNotFound
        invariant forall j :: 0 <= j < i ==> !EqualsIgnoreCase(propertyName.value, props[j])
      {
        if EqualsIgnoreCase(propertyName.value, props[i]) {
          columnToProperty[col] := i;
          break;
        }
        i := i + 1;
      }
      col := col + 1;
    }
  }
}
