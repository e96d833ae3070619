/**
 * The decisions the Gradle build script makes while configuring the plugin build:
 * which IDE platform to build against, the plugin lists, the description cut out of
 * README.md, the change notes, the release channel, and the publishing order.
 */
module BuildScript {
  import opened Wrappers
  import opened JavaText

  datatype BuildError =
    | GradleException(message: String)
    | MissingValue(property: String)
    | IllegalArgument

  // ---------------------------------------------------------------- platform

  datatype Platform = Local(path: String) | Remote(platformType: String, platformVersion: String)

  const PlatformMessage: String := "必须指定 ideaLocalPath 或同时指定 platformType 和 platformVersion"

  /**
   * The `intellijPlatform` dependency block. `localPath` is `ideaLocalPath` with "" for a
   * missing property; the type and version properties are read with `get()`, which fails
   * when the property is absent.
   */
  function ResolvePlatform(localPath: String, platformType: Option<String>, platformVersion: Option<String>)
    : (r: Result<Platform, BuildError>)
    ensures localPath != [] ==> r == Ok(Local(localPath))
    ensures localPath == [] && platformType.Some? && platformVersion.Some? ==>
              (r.Ok? <==> platformType.value != [] && platformVersion.value != [])
    ensures localPath == [] && r.Ok? ==>
              platformType.Some? && platformVersion.Some? &&
              r.value == Remote(platformType.value, platformVersion.value)
    ensures localPath == [] && platformType.Some? && platformVersion.Some? && r.Err? ==>
              r.error == GradleException(PlatformMessage)
  {
    if localPath != [] then Ok(Local(localPath))
    else if platformType.None? then Err(MissingValue("platformType"))
    else if platformVersion.None? then Err(MissingValue("platformVersion"))
    else if platformType.value != [] && platformVersion.value != [] then
      Ok(Remote(platformType.value, platformVersion.value))
    else Err(GradleException(PlatformMessage))
  }

  // ---------------------------------------------------------------- plugin lists

  /** `platformBundledPlugins` and `platformPlugins` are split verbatim on ','. */
  function PluginList(property: String): seq<String>
  {
    Split(property, ',')
  }

  lemma PluginListFacts(property: String)
    ensures Join(PluginList(property), ',') == property
    ensures |PluginList(property)| == Count(property, ',') + 1
    ensures property == [] ==> PluginList(property) == [[]]
  {
    JoinSplit(property, ',');
  }

  // ---------------------------------------------------------------- description

  const DescriptionStart: String := "<!-- Plugin description -->"
  const DescriptionEnd: String := "<!-- Plugin description end -->"

  /** Index of the first line equal to `x`, or -1 (Kotlin `List.indexOf`). */
  function FirstIndex(lines: seq<String>, x: String): (r: int)
    ensures -1 <= r < |lines|
    ensures r >= 0 ==> lines[r] == x && forall k :: 0 <= k < r ==> lines[k] != x
    ensures r == -1 <==> x !in lines
  {
    if lines == [] then -1
    else if lines[0] == x then 0
    else var k := FirstIndex(lines[1..], x); if k < 0 then -1 else k + 1
  }

  function JoinLines(lines: seq<String>): String
  {
    if lines == [] then [] else Join(lines, '\n')
  }

  /**
   * The markdown between the two marker lines of README.md, before it is rendered as HTML.
   * A missing marker is a GradleException naming both markers; an end marker that comes
   * before the start marker makes `subList` throw.
   */
  function ExtractDescription(readme: String): (r: Result<String, BuildError>)
    ensures var lines := Split(readme, '\n');
            (DescriptionStart !in lines || DescriptionEnd !in lines) <==>
              r == Err(GradleException("Plugin description section not found in README.md:\n" + DescriptionStart + " ... " + DescriptionEnd))
  {
    var lines := Split(readme, '\n');
    if DescriptionStart !in lines || DescriptionEnd !in lines then
      Err(GradleException("Plugin description section not found in README.md:\n" + DescriptionStart + " ... " + DescriptionEnd))
    else
      var from := FirstIndex(lines, DescriptionStart) + 1;
      var to := FirstIndex(lines, DescriptionEnd);
      if from > to then Err(IllegalArgument) else Ok(JoinLines(lines[from..to]))
  }

  /** When the first start line precedes the first end line, the section is exactly the lines strictly between them. */
  lemma DescriptionBetweenMarkers(readme: String, i: nat, j: nat)
    requires var lines := Split(readme, '\n');
             i < j < |lines| && lines[i] == DescriptionStart && lines[j] == DescriptionEnd &&
             DescriptionStart !in lines[..i] && DescriptionEnd !in lines[..j]
    ensures ExtractDescription(readme) == Ok(JoinLines(Split(readme, '\n')[i + 1..j]))
    ensures forall k :: i < k < j ==> Split(readme, '\n')[k] != DescriptionEnd
  {
    var lines := Split(readme, '\n');
    assert lines[i] in lines && lines[j] in lines;
    forall k | 0 <= k < i ensures lines[k] != DescriptionStart { assert lines[..i][k] == lines[k]; }
    forall k | 0 <= k < j ensures lines[k] != DescriptionEnd { assert lines[..j][k] == lines[k]; }
    assert FirstIndex(lines, DescriptionStart) == i;
    assert FirstIndex(lines, DescriptionEnd) == j;
  }

  /** An end marker placed before the start marker leaves `subList` with a negative range. */
  lemma DescriptionMarkersReversed(readme: String, i: nat, j: nat)
    requires var lines := Split(readme, '\n');
             j < i < |lines| && lines[i] == DescriptionStart && lines[j] == DescriptionEnd &&
             DescriptionStart !in lines[..i] && DescriptionEnd !in lines[..j]
    ensures ExtractDescription(readme) == Err(IllegalArgument)
  {
    var lines := Split(readme, '\n');
    assert lines[i] in lines && lines[j] in lines;
    forall k | 0 <= k < i ensures lines[k] != DescriptionStart { assert lines[..i][k] == lines[k]; }
    forall k | 0 <= k < j ensures lines[k] != DescriptionEnd { assert lines[..j][k] == lines[k]; }
    assert FirstIndex(lines, DescriptionStart) == i;
    assert FirstIndex(lines, DescriptionEnd) == j;
  }

  // ---------------------------------------------------------------- change notes

  datatype Section = Section(name: String, items: seq<String>)
  datatype ChangelogItem = ChangelogItem(version: String, header: String, sections: seq<Section>)

  /** What is handed to the changelog renderer: the item, whether to print its header, and the sections to print. */
  datatype RenderRequest = RenderRequest(item: ChangelogItem, withHeader: bool, sections: seq<Section>)

  /** `withEmptySections(false)`: the sections that have items, in their order. */
  function NonEmptySections(ss: seq<Section>): (r: seq<Section>)
    ensures forall s :: s in r <==> s in ss && s.items != []
    ensures |r| <= |ss|
  {
    if ss == [] then []
    else if ss[0].items == [] then NonEmptySections(ss[1..])
    else [ss[0]] + NonEmptySections(ss[1..])
  }

  /**
   * The filter keeps the order of the sections: it works section by section, keeping a section
   * with items and dropping an empty one, and the pieces of a split list are filtered apart.
   */
  lemma {:induction false} NonEmptySectionsInOrder(a: seq<Section>, s: Section, b: seq<Section>)
    ensures NonEmptySections([s]) == if s.items == [] then [] else [s]
    ensures NonEmptySections(a + b) == NonEmptySections(a) + NonEmptySections(b)
    ensures NonEmptySections(a + [s] + b) == NonEmptySections(a) + NonEmptySections([s]) + NonEmptySections(b)
  {
    assert [s][1..] == [];
    NonEmptySectionsAppend(a, b);
    NonEmptySectionsAppend(a + [s], b);
    NonEmptySectionsAppend(a, [s]);
  }

  /** Filtering a concatenation filters each part. */
  lemma {:induction false} NonEmptySectionsAppend(a: seq<Section>, b: seq<Section>)
    ensures NonEmptySections(a + b) == NonEmptySections(a) + NonEmptySections(b)
    decreases |a|
  {
    if a == [] {
      assert a + b == b;
    } else {
      assert (a + b)[0] == a[0];
      assert (a + b)[1..] == a[1..] + b;
      NonEmptySectionsAppend(a[1..], b);
    }
  }

  /** `getOrNull(version) ?: getUnreleased()`, then `withHeader(false)` and `withEmptySections(false)`. */
  function ChangeNotes(changelog: map<String, ChangelogItem>, unreleased: ChangelogItem, version: String)
    : (r: RenderRequest)
    ensures !r.withHeader
    ensures version in changelog ==> r.item == changelog[version]
    ensures version !in changelog ==> r.item == unreleased
    ensures forall s :: s in r.sections <==> s in r.item.sections && s.items != []
    ensures r.sections == NonEmptySections(r.item.sections)
  {
    var item := if version in changelog then changelog[version] else unreleased;
    RenderRequest(item, false, NonEmptySections(item.sections))
  }

  // ---------------------------------------------------------------- release channel

  function IfEmpty(s: String, d: String): String { if s == [] then d else s }

  /** `listOf(v.substringAfter('-', "").substringBefore('.').ifEmpty { "default" })` */
  function Channels(version: String): (r: seq<String>)
    ensures |r| == 1 && r[0] != []
    ensures '-' !in version ==> r == ["default"]
  {
    [IfEmpty(SubstringBefore(SubstringAfter(version, '-', ""), '.'), "default")]
  }

  /** The channel is the text after the first '-' up to the next '.', or "default" when that text is empty. */
  lemma ChannelsShape(version: String, i: nat)
    requires i < |version| && version[i] == '-' && forall k :: 0 <= k < i ==> version[k] != '-'
    ensures var pre := SubstringBefore(version[i + 1..], '.');
            Channels(version) == [if pre == [] then "default" else pre]
    ensures '.' !in Channels(version)[0]
  {
    IndexOfCharFirst(version, '-', i);
  }

  /** The text before the first `c` of a string made of `w`, then `c`, then anything. */
  lemma BeforeFirst(w: String, c: char, rest: String)
    requires c !in w
    ensures var s := w + [c] + rest;
      |w| < |s| && s[|w|] == c && s[..|w|] == w && forall k :: 0 <= k < |w| ==> s[k] != c
  {
    var s := w + [c] + rest;
    forall k | 0 <= k < |w| ensures s[k] != c {
      assert s[k] == w[k];
    }
    assert s[..|w|] == w;
  }

  /** A version `w-pre.rest` whose core `w` has no '-' is in channel `pre`. */
  lemma {:induction false} ChannelOf(w: String, pre: String, rest: String)
    requires '-' !in w && pre != [] && '.' !in pre
    ensures Channels(w + "-" + pre + "." + rest) == [pre]
  {
    var v := w + "-" + pre + "." + rest;
    BeforeFirst(w, '-', pre + "." + rest);
    assert v == w + ['-'] + (pre + "." + rest);
    ChannelsShape(v, |w|);
    assert v[|w| + 1..] == pre + "." + rest;
    BeforeFirst(pre, '.', rest);
    assert pre + "." + rest == pre + ['.'] + rest;
    IndexOfCharFirst(pre + "." + rest, '.', |pre|);
  }

  /** A version `w-tail` whose core `w` has no '-' and whose tail has no '.' is in channel `tail`. */
  lemma {:induction false} ChannelOfTail(w: String, tail: String)
    requires '-' !in w && tail != [] && '.' !in tail
    ensures Channels(w + "-" + tail) == [tail]
  {
    var v := w + "-" + tail;
    BeforeFirst(w, '-', tail);
    assert v == w + ['-'] + tail;
    ChannelsShape(v, |w|);
    assert v[|w| + 1..] == tail;
  }

  lemma ChannelsExample()
    ensures Channels("2.1.7-alpha.3") == ["alpha"]
    ensures Channels("2.1.7") == ["default"]
  {
    assert "2.1.7-alpha.3" == "2.1.7" + "-" + "alpha" + "." + "3";
    ChannelOf("2.1.7", "alpha", "3");
  }

  /**
   * Semantic Versioning 2.0.0 (items 9 and 10) ends the pre-release at a '+', which starts
   * build metadata. This reading takes the channel from the version without its metadata.
   */
  function ChannelsSemVer(version: String): (r: seq<String>)
    ensures |r| == 1 && r[0] != [] && '.' !in r[0]
    ensures r[0] == "default" || '+' !in r[0]
  {
    var core := SubstringBefore(version, '+');
    var r := Channels(core);
    assert r[0] == "default" || '+' !in r[0] by {
      var after := SubstringAfter(core, '-', "");
      assert forall x :: x in after ==> x in core;
      assert forall x :: x in SubstringBefore(after, '.') ==> x in after;
    }
    r
  }

  /** Without build metadata the two readings agree. */
  lemma ChannelsSemVerAgrees(version: String)
    requires '+' !in version
    ensures ChannelsSemVer(version) == Channels(version)
  {
  }

  /** With build metadata, the Semantic Versioning reading looks only at the core. */
  lemma {:induction false} ChannelsSemVerCore(core: String, meta: String)
    requires '+' !in core
    ensures ChannelsSemVer(core + "+" + meta) == Channels(core)
  {
    var v := core + "+" + meta;
    BeforeFirst(core, '+', meta);
    assert v == core + ['+'] + meta;
    IndexOfCharFirst(v, '+', |core|);
  }

  /** A version with build metadata but no pre-release: the script derives a channel from the metadata. */
  lemma ChannelsBuildMetadata()
    ensures Channels("1.0.0+build-7") == ["7"]
  {
    assert "1.0.0+build-7" == "1.0.0+build" + "-" + "7";
    ChannelOfTail("1.0.0+build", "7");
  }

  /** The same version read by Semantic Versioning has no pre-release, so its channel is the default. */
  lemma SemVerBuildMetadata()
    ensures ChannelsSemVer("1.0.0+build-7") == ["default"]
  {
    var core, meta := "1.0.0", "build-7";
    assert '+' !in core && '-' !in core;
    assert "1.0.0+build-7" == core + "+" + meta;
    ChannelsSemVerCore(core, meta);
  }
}
