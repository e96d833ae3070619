/**
 * What both mapper-XML parsers share: the view of a mapper file they read, the validity rule,
 * and the maps they build from the root's direct sub-tags. A sub-tag is identified by its
 * position among the root's children, standing in for the PSI tag reference the maps hold.
 */
module MapperParse {
  import opened Wrappers
  import opened JavaText
  import opened XmlStructure
  import opened Multimap

  /** A direct sub-tag of the mapper root: its name and its `id` attribute value (None when absent or null). */
  datatype SubTag = SubTag(name: String, id: Option<String>)

  /** The root tag: its name, its `namespace` attribute value and its direct sub-tags in document order. */
  datatype MapperRoot = MapperRoot(name: String, namespace: Option<String>, children: seq<SubTag>)

  /**
   * An XML file as the parsers see it. `document` is None when there is no XML document and
   * Some(None) when the document has no root tag; `hasTextDocument` says whether the editor
   * document (used for line numbers) can be obtained. `path` is the path of the file's virtual
   * file, None for a file that has none (one held only in memory).
   */
  datatype MapperFile = MapperFile(name: String, path: Option<String>, document: Option<Option<MapperRoot>>, hasTextDocument: bool)

  /**
   * What the parsers' `parse` throws: a NullPointerException when the file has no virtual file
   * to take the path from, an IllegalArgumentException (older parser only) for a file that is not
   * a valid mapper.
   */
  datatype ParseError = NullPointer | IllegalArgument(message: String)

  /** `isValidMyBatisFile`: a document whose root is `mapper` with a non-blank namespace. */
  predicate IsValidMyBatisFile(f: MapperFile)
  {
    f.document.Some? && f.document.value.Some? && f.document.value.value.name == MapperTag
    && f.document.value.value.namespace.Some? && !IsBlank(f.document.value.value.namespace.value)
  }

  /** `getNamespaceName`: the trimmed namespace, or None without a root or a namespace. */
  function NamespaceName(f: MapperFile): (r: Option<String>)
    ensures IsValidMyBatisFile(f) ==> r.Some? && r.value != [] && r.value == Trim(f.document.value.value.namespace.value)
  {
    if f.document.None? || f.document.value.None? then None
    else
      var ns := f.document.value.value.namespace;
      if ns.None? then None else Some(Trim(ns.value))
  }

  /**
   * The map key of a sub-tag: its trimmed id. With `skipBlank` a blank id gives no key, as for
   * statements, sql fragments and (in the newer parser) result maps.
   */
  function KeyOf(t: SubTag, skipBlank: bool): (r: Option<String>)
    ensures r.Some? ==> t.id.Some? && r.value == Trim(t.id.value)
    ensures skipBlank && r.Some? ==> r.value != []
  {
    if t.id.None? then None
    else if skipBlank && Trim(t.id.value) == [] then None
    else Some(Trim(t.id.value))
  }

  /** A key is already trimmed. */
  lemma KeyIsTrimmed(t: SubTag, skipBlank: bool)
    ensures KeyOf(t, skipBlank).Some? ==> Trim(KeyOf(t, skipBlank).value) == KeyOf(t, skipBlank).value
  {
    if t.id.Some? {
      TrimIdempotent(t.id.value);
    }
  }

  /** A (key, child position) pair, in the order a parser meets them. */
  type Entry = (String, nat)

  /** Child `e.1`, among the first `n`, is named `kind` and files under key `e.0`. */
  predicate IsKindEntry(cs: seq<SubTag>, kind: String, n: nat, skipBlank: bool, e: Entry)
  {
    e.1 < n && e.1 < |cs| && cs[e.1].name == kind && KeyOf(cs[e.1], skipBlank) == Some(e.0)
  }

  /** The entries of the first `n` children that are named `kind` and have a key. */
  function KindEntries(cs: seq<SubTag>, kind: String, n: nat, skipBlank: bool): (r: seq<Entry>)
    requires n <= |cs|
    ensures forall e {:trigger e in r} :: e in r <==> IsKindEntry(cs, kind, n, skipBlank, e)
    ensures forall j :: 0 <= j < |r| ==> r[j].1 < n
    decreases n
  {
    if n == 0 then []
    else
      var k := KeyOf(cs[n - 1], skipBlank);
      var prev := KindEntries(cs, kind, n - 1, skipBlank);
      var add := if cs[n - 1].name == kind && k.Some? then [(k.value, n - 1)] else [];
      InConcat(prev, add);
      KindEntryStep(cs, kind, n, skipBlank, add);
      prev + add
  }

  lemma InConcat<T>(a: seq<T>, b: seq<T>)
    ensures forall e {:trigger e in a + b} :: e in a + b <==> e in a || e in b
  {
  }

  /** Child `n - 1` is the only entry the first `n` children have beyond the first `n - 1`. */
  lemma KindEntryStep(cs: seq<SubTag>, kind: String, n: nat, skipBlank: bool, add: seq<Entry>)
    requires 0 < n <= |cs|
    requires add == if cs[n - 1].name == kind && KeyOf(cs[n - 1], skipBlank).Some?
                    then [(KeyOf(cs[n - 1], skipBlank).value, n - 1)] else []
    ensures forall e :: IsKindEntry(cs, kind, n, skipBlank, e) <==> IsKindEntry(cs, kind, n - 1, skipBlank, e) || e in add
  {
  }

  /** The entries' positions strictly increase. */
  predicate InDocumentOrder(es: seq<Entry>)
  {
    forall j, l :: 0 <= j < l < |es| ==> es[j].1 < es[l].1
  }

  /** Entries of one kind follow document order. */
  lemma {:induction false} KindEntriesSorted(cs: seq<SubTag>, kind: String, n: nat, skipBlank: bool)
    requires n <= |cs|
    ensures InDocumentOrder(KindEntries(cs, kind, n, skipBlank))
    decreases n
  {
    if n > 0 {
      KindEntriesSorted(cs, kind, n - 1, skipBlank);
      var prev := KindEntries(cs, kind, n - 1, skipBlank);
      var r := KindEntries(cs, kind, n, skipBlank);
      assert r[..|prev|] == prev;
      assert |r| > |prev| ==> |r| == |prev| + 1 && r[|prev|].1 == n - 1;
      forall j, l | 0 <= j < l < |r| ensures r[j].1 < r[l].1 {
        if l >= |prev| {
          assert r[l].1 == n - 1;
          assert r[j] == prev[j];
          assert prev[j].1 < n - 1;
        } else {
          assert r[j] == prev[j] && r[l] == prev[l];
          assert prev[j].1 < prev[l].1;
        }
      }
    }
  }

  /** Child `e.1` is named one of `kinds` and files under key `e.0`. */
  predicate IsKindsEntry(cs: seq<SubTag>, kinds: seq<String>, skipBlank: bool, e: Entry)
  {
    e.1 < |cs| && cs[e.1].name in kinds && KeyOf(cs[e.1], skipBlank) == Some(e.0)
  }

  /** The entries of every child named one of `kinds`, kind by kind in the order given, each in document order. */
  function KindsEntries(cs: seq<SubTag>, kinds: seq<String>, skipBlank: bool): (r: seq<Entry>)
    ensures forall e {:trigger e in r} :: e in r <==> IsKindsEntry(cs, kinds, skipBlank, e)
    decreases |kinds|
  {
    if kinds == [] then []
    else
      var n := |kinds| - 1;
      var prev := KindsEntries(cs, kinds[..n], skipBlank);
      var last := KindEntries(cs, kinds[n], |cs|, skipBlank);
      assert forall e {:trigger e in prev + last} :: e in prev + last <==> e in prev || e in last;
      assert forall x :: x in kinds <==> x in kinds[..n] || x == kinds[n] by {
        assert kinds == kinds[..n] + [kinds[n]];
      }
      assert forall e :: IsKindsEntry(cs, kinds, skipBlank, e) <==>
        IsKindsEntry(cs, kinds[..n], skipBlank, e) || IsKindEntry(cs, kinds[n], |cs|, skipBlank, e);
      prev + last
  }

  /** The scan of one more child adds at most its own entry. */
  lemma KindEntriesStep(cs: seq<SubTag>, kind: String, i: nat, skipBlank: bool)
    requires i < |cs|
    ensures KindEntries(cs, kind, i + 1, skipBlank) ==
      KindEntries(cs, kind, i, skipBlank)
      + (if cs[i].name == kind && KeyOf(cs[i], skipBlank).Some? then [(KeyOf(cs[i], skipBlank).value, i)] else [])
  {
  }

  /** Scanning child `i` for `computeIfAbsent(..).add(..)` after the entries `before`. */
  lemma GroupScanStep(before: seq<Entry>, cs: seq<SubTag>, kind: String, i: nat, skipBlank: bool)
    requires i < |cs|
    ensures var m := Group(before + KindEntries(cs, kind, i, skipBlank));
      var key := KeyOf(cs[i], skipBlank);
      Group(before + KindEntries(cs, kind, i + 1, skipBlank)) ==
        if cs[i].name == kind && key.Some? then m[key.value := (if key.value in m then m[key.value] else []) + [i]] else m
  {
    var es := before + KindEntries(cs, kind, i, skipBlank);
    KindEntriesStep(cs, kind, i, skipBlank);
    var key := KeyOf(cs[i], skipBlank);
    if cs[i].name == kind && key.Some? {
      assert before + KindEntries(cs, kind, i + 1, skipBlank) == es + [(key.value, i)];
      GroupSnoc(es, (key.value, i));
    } else {
      assert before + KindEntries(cs, kind, i + 1, skipBlank) == es;
    }
  }

  /** Scanning child `i` for `put(..)`. */
  lemma LastWinsScanStep(cs: seq<SubTag>, kind: String, i: nat, skipBlank: bool)
    requires i < |cs|
    ensures var key := KeyOf(cs[i], skipBlank);
      LastWins(KindEntries(cs, kind, i + 1, skipBlank)) ==
        if cs[i].name == kind && key.Some? then LastWins(KindEntries(cs, kind, i, skipBlank))[key.value := i]
        else LastWins(KindEntries(cs, kind, i, skipBlank))
  {
    KindEntriesStep(cs, kind, i, skipBlank);
    var key := KeyOf(cs[i], skipBlank);
    var es := KindEntries(cs, kind, i, skipBlank);
    if cs[i].name == kind && key.Some? {
      assert KindEntries(cs, kind, i + 1, skipBlank) == es + [(key.value, i)];
      LastWinsSnoc(es, (key.value, i));
    } else {
      assert KindEntries(cs, kind, i + 1, skipBlank) == es;
    }
  }

  /** Without children there are no entries and so nothing in any map. */
  lemma NoChildrenNoEntries(kinds: seq<String>, kind: String, skipBlank: bool)
    ensures Group(KindsEntries([], kinds, skipBlank)) == map[]
    ensures LastWins(KindEntries([], kind, 0, skipBlank)) == map[]
  {
    NoChildrenEmpty(kinds, skipBlank);
  }

  lemma {:induction false} NoChildrenEmpty(kinds: seq<String>, skipBlank: bool)
    ensures KindsEntries([], kinds, skipBlank) == []
    decreases |kinds|
  {
    if kinds != [] {
      NoChildrenEmpty(kinds[..|kinds| - 1], skipBlank);
    }
  }

  /** The statement entries: select, insert, update and delete sub-tags with a non-blank id. */
  function StatementEntries(cs: seq<SubTag>): seq<Entry>
  {
    KindsEntries(cs, StatementTags, true)
  }

  lemma KindsEntriesSnoc(cs: seq<SubTag>, kinds: seq<String>, kind: String, skipBlank: bool)
    ensures KindsEntries(cs, kinds + [kind], skipBlank) == KindsEntries(cs, kinds, skipBlank) + KindEntries(cs, kind, |cs|, skipBlank)
  {
    assert (kinds + [kind])[..|kinds|] == kinds;
  }

  /** The statement map has a key exactly for each non-blank trimmed id of a statement sub-tag. */
  lemma StatementKeys(cs: seq<SubTag>, k: String)
    ensures k in Group(StatementEntries(cs)) <==>
      exists i :: 0 <= i < |cs| && IsStatementTag(cs[i].name) && KeyOf(cs[i], true) == Some(k)
    ensures k in Group(StatementEntries(cs)) ==> k != []
  {
    var es := StatementEntries(cs);
    GroupIsGrouping(es);
    forall i | 0 <= i < |cs|
      ensures IsStatementTag(cs[i].name) <==> cs[i].name in StatementTags
    {
      StatementTagsListed(cs[i].name);
    }
    if k in Group(es) {
      var i :| (k, i) in es;
      assert IsKindsEntry(cs, StatementTags, true, (k, i));
    }
    if exists i :: 0 <= i < |cs| && IsStatementTag(cs[i].name) && KeyOf(cs[i], true) == Some(k) {
      var i :| 0 <= i < |cs| && IsStatementTag(cs[i].name) && KeyOf(cs[i], true) == Some(k);
      assert IsKindsEntry(cs, StatementTags, true, (k, i));
    }
  }

  /** Child `i` is a statement sub-tag keyed `k`. */
  predicate IsStatementFor(cs: seq<SubTag>, k: String, i: int)
  {
    0 <= i < |cs| && IsStatementTag(cs[i].name) && KeyOf(cs[i], true) == Some(k)
  }

  /** The positions filed under `k` in the statement map are exactly the statement sub-tags keyed `k`. */
  lemma StatementIndices(cs: seq<SubTag>, k: String)
    ensures forall i :: i in ValuesOf(StatementEntries(cs), k) <==> IsStatementFor(cs, k, i)
  {
    forall i: nat ensures i in ValuesOf(StatementEntries(cs), k) <==> IsStatementFor(cs, k, i)
    {
      assert (k, i) in StatementEntries(cs) <==> IsKindsEntry(cs, StatementTags, true, (k, i));
      if i < |cs| {
        StatementTagsListed(cs[i].name);
      }
    }
  }

  /**
   * Under each key the statement map lists all matching selects first, then inserts, updates and
   * deletes, each kind in document order.
   */
  lemma StatementOrder(cs: seq<SubTag>, k: String)
    ensures k in Group(StatementEntries(cs)) ==>
              Group(StatementEntries(cs))[k] ==
                ValuesOf(KindEntries(cs, SelectTag, |cs|, true), k) + ValuesOf(KindEntries(cs, InsertTag, |cs|, true), k)
                + ValuesOf(KindEntries(cs, UpdateTag, |cs|, true), k) + ValuesOf(KindEntries(cs, DeleteTag, |cs|, true), k)
  {
    var s := KindEntries(cs, SelectTag, |cs|, true);
    var ins := KindEntries(cs, InsertTag, |cs|, true);
    var u := KindEntries(cs, UpdateTag, |cs|, true);
    var d := KindEntries(cs, DeleteTag, |cs|, true);
    GroupIsGrouping(StatementEntries(cs));
    assert StatementTags == [] + [SelectTag] + [InsertTag] + [UpdateTag] + [DeleteTag];
    KindsEntriesSnoc(cs, [], SelectTag, true);
    KindsEntriesSnoc(cs, [] + [SelectTag], InsertTag, true);
    KindsEntriesSnoc(cs, [] + [SelectTag] + [InsertTag], UpdateTag, true);
    KindsEntriesSnoc(cs, [] + [SelectTag] + [InsertTag] + [UpdateTag], DeleteTag, true);
    assert StatementEntries(cs) == [] + s + ins + u + d;
    ValuesOfAppend([] + s, ins, k);
    ValuesOfAppend([] + s + ins, u, k);
    ValuesOfAppend([] + s + ins + u, d, k);
    assert [] + s == s;
  }

  predicate Increasing(r: seq<nat>)
  {
    forall j, l :: 0 <= j < l < |r| ==> r[j] < r[l]
  }

  /** Within one kind, the positions under a key follow document order. */
  lemma KindIndicesIncrease(cs: seq<SubTag>, kind: String, k: String, skipBlank: bool)
    ensures Increasing(ValuesOf(KindEntries(cs, kind, |cs|, skipBlank), k))
  {
    KindEntriesSorted(cs, kind, |cs|, skipBlank);
    SortedIndices(KindEntries(cs, kind, |cs|, skipBlank), k);
  }

  lemma {:induction false} SortedIndices(es: seq<Entry>, k: String)
    requires InDocumentOrder(es)
    ensures Increasing(ValuesOf(es, k))
    decreases |es|
  {
    if es != [] {
      var n := |es| - 1;
      SortedIndices(es[..n], k);
      var r0 := ValuesOf(es[..n], k);
      forall x | x in r0 ensures x < es[n].1 {
        assert (k, x) in es[..n];
        var p :| 0 <= p < n && es[..n][p] == (k, x);
        assert es[p].1 < es[n].1;
      }
      var r := ValuesOf(es, k);
      forall j, l | 0 <= j < l < |r| ensures r[j] < r[l] {
        if l < |r0| {
          assert r[j] == r0[j] && r[l] == r0[l];
        } else {
          assert r[j] == r0[j] && r0[j] in r0;
        }
      }
    }
  }

  /** Of two entries in document order, the one at the smaller position comes first. */
  lemma EarlierPosition(es: seq<Entry>, j: nat, l: nat)
    requires InDocumentOrder(es) && j < |es| && l < |es| && es[j].1 < es[l].1
    ensures j < l
  {
  }

  /** A put-by-id map has a key exactly for each trimmed id of a sub-tag of that kind (non-blank ones with `skipBlank`). */
  lemma LastTagKeys(cs: seq<SubTag>, kind: String, k: String, skipBlank: bool)
    ensures k in LastWins(KindEntries(cs, kind, |cs|, skipBlank)) <==>
      exists i :: 0 <= i < |cs| && cs[i].name == kind && KeyOf(cs[i], skipBlank) == Some(k)
  {
    var es := KindEntries(cs, kind, |cs|, skipBlank);
    if exists i :: 0 <= i < |cs| && cs[i].name == kind && KeyOf(cs[i], skipBlank) == Some(k) {
      var i :| 0 <= i < |cs| && cs[i].name == kind && KeyOf(cs[i], skipBlank) == Some(k);
      assert IsKindEntry(cs, kind, |cs|, skipBlank, (k, i));
    }
    if k in LastWins(es) {
      var i :| (k, i) in es;
      assert IsKindEntry(cs, kind, |cs|, skipBlank, (k, i));
    }
  }

  /** Child `p` is the last sub-tag named `kind` whose key is `k`. */
  predicate IsLastOfKind(cs: seq<SubTag>, kind: String, k: String, p: nat, skipBlank: bool)
  {
    p < |cs| && cs[p].name == kind && KeyOf(cs[p], skipBlank) == Some(k)
    && forall i :: p < i < |cs| && cs[i].name == kind ==> KeyOf(cs[i], skipBlank) != Some(k)
  }

  /** Under each key that map holds the last sub-tag of that kind with that key, in document order. */
  lemma LastTagWins(cs: seq<SubTag>, kind: String, k: String, skipBlank: bool)
    ensures var m := LastWins(KindEntries(cs, kind, |cs|, skipBlank));
      k in m ==> IsLastOfKind(cs, kind, k, m[k], skipBlank)
  {
    var es := KindEntries(cs, kind, |cs|, skipBlank);
    var m := LastWins(es);
    if k in m {
      var j :| LastFor(es, k, j) && es[j].1 == m[k];
      LastEntryIsLastTag(cs, kind, k, j, skipBlank);
    }
  }

  lemma LastEntryIsLastTag(cs: seq<SubTag>, kind: String, k: String, j: int, skipBlank: bool)
    requires LastFor(KindEntries(cs, kind, |cs|, skipBlank), k, j)
    ensures IsLastOfKind(cs, kind, k, KindEntries(cs, kind, |cs|, skipBlank)[j].1, skipBlank)
  {
    var es := KindEntries(cs, kind, |cs|, skipBlank);
    KindEntriesSorted(cs, kind, |cs|, skipBlank);
    assert es[j] in es;
    assert IsKindEntry(cs, kind, |cs|, skipBlank, es[j]);
    forall i | es[j].1 < i < |cs| && cs[i].name == kind
      ensures KeyOf(cs[i], skipBlank) != Some(k)
    {
      var key := KeyOf(cs[i], skipBlank);
      if key.Some? {
        assert IsKindEntry(cs, kind, |cs|, skipBlank, (key.value, i));
        assert (key.value, i) in es;
        var l :| 0 <= l < |es| && es[l] == (key.value, i);
        EarlierPosition(es, j, l);
      }
    }
  }

  /** What `validateMapperStructure` sorts each sub-tag into. */
  datatype TagClass = Unsupported | Statement | SqlFragment | OtherSupported

  function Classify(name: String): TagClass
  {
    if !IsSupportedTag(name) then Unsupported
    else if IsStatementTag(name) then Statement
    else if name == SqlTag then SqlFragment
    else OtherSupported
  }

  /** How many of the sub-tags fall into class `c`. */
  function CountClass(cs: seq<SubTag>, c: TagClass): (r: nat)
    ensures r <= |cs|
    decreases |cs|
  {
    if cs == [] then 0
    else CountClass(cs[..|cs| - 1], c) + (if Classify(cs[|cs| - 1].name) == c then 1 else 0)
  }

  /** Every sub-tag falls into exactly one class. */
  lemma {:induction false} ClassesPartition(cs: seq<SubTag>)
    ensures CountClass(cs, Unsupported) + CountClass(cs, Statement) + CountClass(cs, SqlFragment)
            + CountClass(cs, OtherSupported) == |cs|
    decreases |cs|
  {
    if cs != [] {
      ClassesPartition(cs[..|cs| - 1]);
    }
  }

  /**
   * `validateMapperStructure`'s loop: the three counts it logs. Together they never exceed the
   * number of sub-tags.
   */
  method ValidateMapperStructure(cs: seq<SubTag>) returns (statementCount: nat, sqlFragmentCount: nat, unsupportedCount: nat)
    ensures statementCount == CountClass(cs, Statement)
    ensures sqlFragmentCount == CountClass(cs, SqlFragment)
    ensures unsupportedCount == CountClass(cs, Unsupported)
    ensures statementCount + sqlFragmentCount + unsupportedCount <= |cs|
  {
    statementCount, sqlFragmentCount, unsupportedCount := 0, 0, 0;
    for i := 0 to |cs|
      invariant statementCount == CountClass(cs[..i], Statement)
      invariant sqlFragmentCount == CountClass(cs[..i], SqlFragment)
      invariant unsupportedCount == CountClass(cs[..i], Unsupported)
    {
      assert cs[..i + 1][..i] == cs[..i];
      var tagName := cs[i].name;
      if !IsSupportedTag(tagName) {
        unsupportedCount := unsupportedCount + 1;
        continue;
      }
      if IsStatementTag(tagName) {
        statementCount := statementCount + 1;
      } else if tagName == SqlTag {
        sqlFragmentCount := sqlFragmentCount + 1;
      }
    }
    assert cs[..|cs|] == cs;
    ClassesPartition(cs);
  }
}
