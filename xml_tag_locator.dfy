/**
 * `XmlTagLocator` of the older plugin tree: XPath-like paths for mapper tags, the parser that
 * walks such a path back down the tree, the search by tag name and SQL id, and the order in
 * which `findXmlTagByInfo` tries its strategies.
 */
module XmlTagLocator {
  import opened Wrappers
  import opened JavaText
  import opened XmlTree

  // ---------------------------------------------------------------- escaping

  /** `escapeXpathString`: every apostrophe doubled, as in the EscapeApos rule of section 3.1.1 of XPath 2.0. */
  function Escape(s: String): (r: String)
    ensures |r| == |s| + Count(s, '\'')
  {
    if s == [] then []
    else (if s[0] == '\'' then "''" else [s[0]]) + Escape(s[1..])
  }

  /** Doubled apostrophes collapsed back to one. */
  function Unescape(s: String): String
  {
    if s == [] then []
    else if |s| >= 2 && s[0] == '\'' && s[1] == '\'' then "'" + Unescape(s[2..])
    else [s[0]] + Unescape(s[1..])
  }

  lemma {:induction false} UnescapeEscape(s: String)
    ensures Unescape(Escape(s)) == s
  {
    if s != [] {
      UnescapeEscape(s[1..]);
      if s[0] == '\'' {
        assert Escape(s) == "''" + Escape(s[1..]);
        assert (Escape(s))[2..] == Escape(s[1..]);
      } else {
        assert Escape(s)[1..] == Escape(s[1..]);
      }
      assert s == [s[0]] + s[1..];
    }
  }

  /** The escape is the source's `replace("'", "''")`. */
  lemma {:induction false} EscapeIsReplace(s: String)
    ensures Escape(s) == ReplaceAll(s, "'", "''")
  {
    if s != [] {
      EscapeIsReplace(s[1..]);
      assert s[..1] == [s[0]];
    }
  }

  /** Text without apostrophes is left as it is. */
  lemma {:induction false} EscapeNoApostrophe(s: String)
    requires '\'' !in s
    ensures Escape(s) == s
  {
    if s != [] {
      assert s[0] != '\'' && s[0] in s;
      assert forall c :: c in s[1..] ==> c in s;
      EscapeNoApostrophe(s[1..]);
      assert s == [s[0]] + s[1..];
    }
  }

  // ---------------------------------------------------------------- generating a path

  /** How many of `sibs` carry exactly the name `n`. */
  function CountNamed(sibs: seq<Tag>, n: String): (r: nat)
    ensures r <= |sibs|
  {
    if sibs == [] then 0 else CountNamed(sibs[..|sibs| - 1], n) + (if sibs[|sibs| - 1].name == n then 1 else 0)
  }

  /** The 1-based position of `sibs[i]` among the siblings with the same name. */
  function Position(sibs: seq<Tag>, i: nat): (r: nat)
    requires i < |sibs|
    ensures 1 <= r <= i + 1
  {
    1 + CountNamed(sibs[..i], sibs[i].name)
  }

  /** One path segment: `name[@id='…']` with an id, `name[k]` below a parent, the bare name for a root. */
  function Segment(t: Tag, position: Option<nat>): String
  {
    if t.id.Some? then t.name + "[@id='" + Escape(t.id.value) + "']"
    else if position.Some? then t.name + "[" + NatToString(position.value) + "]"
    else t.name
  }

  /** The segment for the tag at depth `d` of `path`. */
  function SegmentAt(root: Tag, path: seq<nat>, d: nat): String
    requires ValidPath(root, path) && d <= |path|
  {
    PrefixValid(root, path, d);
    if d == 0 then Segment(root, None)
    else
      PathPrefix(root, path, d - 1);
      var parent := Node(root, path[..d - 1]);
      Segment(Node(root, path[..d]), Some(Position(parent.children, path[d - 1])))
  }

  lemma PrefixValid(root: Tag, path: seq<nat>, d: nat)
    requires ValidPath(root, path) && d <= |path|
    ensures ValidPath(root, path[..d])
  {
    if d < |path| {
      PathPrefix(root, path, d);
    } else {
      assert path[..d] == path;
    }
  }

  /** The segments from the root down to the tag, root first. */
  function Segments(root: Tag, path: seq<nat>): (r: seq<String>)
    requires ValidPath(root, path)
    ensures |r| == |path| + 1
    ensures forall d :: 0 <= d <= |path| ==> r[d] == SegmentAt(root, path, d)
  {
    seq(|path| + 1, d requires 0 <= d <= |path| => SegmentAt(root, path, d))
  }

  /** The path `generateXPathForTag` produces: "/" and the segments joined by "/". */
  function XPath(root: Tag, path: seq<nat>): String
    requires ValidPath(root, path)
  {
    "/" + Join(Segments(root, path), '/')
  }

  /** The sibling loop of `generateXPathForTag`: count same-named siblings until the tag itself. */
  method SiblingPosition(sibs: seq<Tag>, i: nat) returns (position: nat)
    requires i < |sibs|
    ensures position == Position(sibs, i)
  {
    var name := sibs[i].name;
    var index := 0;
    position := 1;
    var k := 0;
    while k < |sibs|
      invariant 0 <= k <= i
      invariant index == CountNamed(sibs[..k], name)
      decreases |sibs| - k
    {
      if sibs[k].name == name {
        if k == i {
          position := index + 1;
          return;
        }
        index := index + 1;
      }
      assert sibs[..k + 1][..k] == sibs[..k];
      k := k + 1;
    }
  }

  /** `generateXPathForTag`: walk from the tag up to the root, putting each segment in front. */
  method GenerateXPathForTag(root: Tag, path: seq<nat>) returns (xpath: String)
    requires ValidPath(root, path)
    ensures xpath == XPath(root, path)
  {
    var segments: seq<String> := [];
    var d := |path|;
    while d >= 0
      invariant -1 <= d <= |path|
      invariant segments == Segments(root, path)[d + 1..]
      decreases d
    {
      var segment := SegmentOf(root, path, d);
      SegmentsFrom(root, path, d);
      segments := [segment] + segments;
      d := d - 1;
    }
    xpath := "/" + Join(segments, '/');
  }

  /** One pass of the loop in `generateXPathForTag`: the segment of the tag at depth `d`. */
  method SegmentOf(root: Tag, path: seq<nat>, d: nat) returns (segment: String)
    requires ValidPath(root, path) && d <= |path|
    ensures segment == SegmentAt(root, path, d)
  {
    PrefixValid(root, path, d);
    var current := Node(root, path[..d]);
    if current.id.Some? {
      segment := current.name + "[@id='" + Escape(current.id.value) + "']";
    } else if d > 0 {
      PathPrefix(root, path, d - 1);
      var parent := Node(root, path[..d - 1]);
      var position := SiblingPosition(parent.children, path[d - 1]);
      segment := current.name + "[" + NatToString(position) + "]";
    } else {
      segment := current.name;
    }
  }

  lemma SegmentsFrom(root: Tag, path: seq<nat>, d: nat)
    requires ValidPath(root, path) && d <= |path|
    ensures [SegmentAt(root, path, d)] + Segments(root, path)[d + 1..] == Segments(root, path)[d..]
  {
  }

  /** The generated path has one segment per tag from the root down, and each starts with its tag's name. */
  lemma XPathShape(root: Tag, path: seq<nat>, d: nat)
    requires ValidPath(root, path) && d <= |path|
    ensures |Segments(root, path)| == |path| + 1
    ensures ValidPath(root, path[..d]) && StartsWith(Segments(root, path)[d], Node(root, path[..d]).name)
    ensures Node(root, path[..d]).id.Some? ==>
              Segments(root, path)[d] == Node(root, path[..d]).name + "[@id='" + Escape(Node(root, path[..d]).id.value) + "']"
    ensures d == 0 && root.id.None? ==> Segments(root, path)[d] == root.name
  {
    PrefixValid(root, path, d);
    var s := Segments(root, path)[d];
    var n := Node(root, path[..d]).name;
    assert s[..|n|] == n;
    assert d == 0 ==> path[..d] == [];
  }

  // ---------------------------------------------------------------- following a path

  /** The indices of the children whose name equals `name` ignoring case, in document order. */
  function Candidates(cs: seq<Tag>, name: String): (r: seq<nat>)
    ensures forall k :: 0 <= k < |r| ==> r[k] < |cs| && EqualsIgnoreCase(cs[r[k]].name, name)
    ensures forall j :: 0 <= j < |cs| && EqualsIgnoreCase(cs[j].name, name) ==> j in r
    ensures forall k, l :: 0 <= k < l < |r| ==> r[k] < r[l]
  {
    if cs == [] then []
    else
      var rest := Candidates(cs[..|cs| - 1], name);
      rest + (if EqualsIgnoreCase(cs[|cs| - 1].name, name) then [|cs| - 1] else [])
  }

  /** A segment split into its name and the text between the first '[' and the closing ']'. */
  function ParseSegment(segment: String): (r: (String, Option<String>))
    ensures r.1.None? ==> r.0 == segment
    ensures r.1.Some? ==> |r.0| > 0 && segment == r.0 + "[" + r.1.value + "]" && '[' !in r.0
  {
    var b := IndexOfChar(segment, '[');
    if b > 0 && EndsWith(segment, "]") then
      BracketSplit(segment, b);
      (segment[..b], Some(segment[b + 1..|segment| - 1]))
    else (segment, None)
  }

  /** A segment ending in ']' whose first '[' is at `b` is the text before it, '[', the inside, ']'. */
  lemma BracketSplit(segment: String, b: nat)
    requires 0 < b < |segment| && segment[b] == '[' && forall k :: 0 <= k < b ==> segment[k] != '['
    requires EndsWith(segment, "]")
    ensures b < |segment| - 1
    ensures segment == segment[..b] + "[" + segment[b + 1..|segment| - 1] + "]"
    ensures '[' !in segment[..b]
  {
    assert segment[|segment| - 1] == "]"[0];
    var name, cond := segment[..b], segment[b + 1..|segment| - 1];
    assert forall k :: 0 <= k < |name| ==> name[k] == segment[k];
    assert segment == name + "[" + cond + "]";
  }

  /** What the locator may run into: an unguarded `substring` on a malformed id condition. */
  datatype LocatorError = IndexOutOfBounds | NullPointer

  /** The first candidate whose id satisfies `ok`, searched in candidate order. */
  function FirstWithId(cs: seq<Tag>, cands: seq<nat>, target: String, exact: bool): (r: Option<nat>)
    requires forall k :: 0 <= k < |cands| ==> cands[k] < |cs|
    ensures r.Some? ==> r.value in cands && cs[r.value].id.Some? &&
                        (if exact then cs[r.value].id.value == target else EqualsIgnoreCase(target, cs[r.value].id.value))
    ensures r.None? ==> forall k :: 0 <= k < |cands| && cs[cands[k]].id.Some? ==>
                          (if exact then cs[cands[k]].id.value != target else !EqualsIgnoreCase(target, cs[cands[k]].id.value))
  {
    if cands == [] then None
    else
      var c := cs[cands[0]];
      if c.id.Some? && (if exact then c.id.value == target else EqualsIgnoreCase(target, c.id.value)) then Some(cands[0])
      else FirstWithId(cs, cands[1..], target, exact)
  }

  /** `findChildTag`: the index of the child a segment selects, None for no match. */
  function FindChild(cs: seq<Tag>, segment: String): (r: Result<Option<nat>, LocatorError>)
    ensures r.Ok? && r.value.Some? ==> r.value.value < |cs| && EqualsIgnoreCase(cs[r.value.value].name, ParseSegment(segment).0)
    ensures r.Ok? && r.value.None? <==> Candidates(cs, ParseSegment(segment).0) == []
  {
    var (name, condition) := ParseSegment(segment);
    var cands := Candidates(cs, name);
    if cands == [] then Ok(None)
    else if condition.None? then Ok(Some(cands[0]))
    else
      var cond := condition.value;
      if StartsWith(cond, "@id='") then
        if |cond| - 1 < 5 then Err(IndexOutOfBounds)
        else
          var target := cond[5..|cond| - 1];
          var exact := FirstWithId(cs, cands, target, true);
          if exact.Some? then Ok(exact)
          else
            var loose := FirstWithId(cs, cands, target, false);
            if loose.Some? then Ok(loose) else Ok(Some(cands[0]))
      else
        var n := ParseInt(cond);
        if n.Some? then
          var index := Wrap32(n.value - 1);
          if 0 <= index < |cands| then Ok(Some(cands[index])) else Ok(Some(cands[0]))
        else Ok(Some(cands[0]))
  }

  /** A tag's id attribute equals `target`, exactly or ignoring case; a missing id never matches. */
  predicate IdMatches(t: Tag, target: String, exact: bool)
  {
    t.id.Some? && (if exact then t.id.value == target else EqualsIgnoreCase(target, t.id.value))
  }

  /** The candidate at `p` is the first one, in candidate order, whose id matches. */
  predicate FirstMatchAt(cs: seq<Tag>, cands: seq<nat>, p: int, target: String, exact: bool)
    requires forall k :: 0 <= k < |cands| ==> cands[k] < |cs|
  {
    0 <= p < |cands| && IdMatches(cs[cands[p]], target, exact) &&
    forall j :: 0 <= j < p ==> !IdMatches(cs[cands[j]], target, exact)
  }

  /** No candidate's id matches. */
  predicate NoMatch(cs: seq<Tag>, cands: seq<nat>, target: String, exact: bool)
    requires forall k :: 0 <= k < |cands| ==> cands[k] < |cs|
  {
    forall k :: 0 <= k < |cands| ==> !IdMatches(cs[cands[k]], target, exact)
  }

  /** The id search returns the first matching candidate, and nothing when none matches. */
  lemma {:induction false} FirstWithIdFinds(cs: seq<Tag>, cands: seq<nat>, target: String, exact: bool)
    requires forall k :: 0 <= k < |cands| ==> cands[k] < |cs|
    ensures forall p :: FirstMatchAt(cs, cands, p, target, exact) ==> FirstWithId(cs, cands, target, exact) == Some(cands[p])
    ensures NoMatch(cs, cands, target, exact) ==> FirstWithId(cs, cands, target, exact) == None
    decreases |cands|
  {
    if cands != [] {
      FirstWithIdFinds(cs, cands[1..], target, exact);
      forall p | FirstMatchAt(cs, cands, p, target, exact) && p > 0
        ensures FirstWithId(cs, cands, target, exact) == Some(cands[p])
      {
        assert !IdMatches(cs[cands[0]], target, exact);
        assert FirstMatchAt(cs, cands[1..], p - 1, target, exact);
      }
      if NoMatch(cs, cands, target, exact) {
        assert !IdMatches(cs[cands[0]], target, exact);
        assert NoMatch(cs, cands[1..], target, exact);
      }
    }
  }

  /** Without a condition `findChildTag` takes the first candidate. */
  lemma FindChildNoCondition(cs: seq<Tag>, segment: String)
    ensures var cands := Candidates(cs, ParseSegment(segment).0);
            cands != [] && ParseSegment(segment).1.None? ==> FindChild(cs, segment) == Ok(Some(cands[0]))
  {
  }

  /**
   * An `@id='…'` condition too short for its `substring` throws; otherwise it takes the first
   * candidate whose id equals the target, else the first whose id equals it ignoring case,
   * else the first candidate.
   */
  lemma FindChildById(cs: seq<Tag>, segment: String)
    ensures var (name, cond) := ParseSegment(segment);
            var cands := Candidates(cs, name);
            cands != [] && cond.Some? && StartsWith(cond.value, "@id='") && |cond.value| == 5 ==>
              FindChild(cs, segment) == Err(IndexOutOfBounds)
    ensures var (name, cond) := ParseSegment(segment);
            var cands := Candidates(cs, name);
            cands != [] && cond.Some? && StartsWith(cond.value, "@id='") && |cond.value| > 5 ==>
              var target := cond.value[5..|cond.value| - 1];
              var r := FindChild(cs, segment);
              (forall p :: FirstMatchAt(cs, cands, p, target, true) ==> r == Ok(Some(cands[p]))) &&
              (NoMatch(cs, cands, target, true) ==>
                 forall p :: FirstMatchAt(cs, cands, p, target, false) ==> r == Ok(Some(cands[p]))) &&
              (NoMatch(cs, cands, target, true) && NoMatch(cs, cands, target, false) ==> r == Ok(Some(cands[0])))
  {
    var (name, cond) := ParseSegment(segment);
    var cands := Candidates(cs, name);
    if cands != [] && cond.Some? && StartsWith(cond.value, "@id='") && |cond.value| > 5 {
      var target := cond.value[5..|cond.value| - 1];
      FirstWithIdFinds(cs, cands, target, true);
      FirstWithIdFinds(cs, cands, target, false);
    }
  }

  /**
   * Any other condition is read as a number k: between 1 and the candidate count it takes the
   * k-th candidate; a non-number or a number out of range falls back to the first candidate.
   * (A Java list holds at most `Integer.MAX_VALUE` elements, which the wrapped `k - 1` needs.)
   */
  lemma FindChildByIndex(cs: seq<Tag>, segment: String)
    ensures var (name, cond) := ParseSegment(segment);
            var cands := Candidates(cs, name);
            cands != [] && cond.Some? && !StartsWith(cond.value, "@id='") ==>
              var n := ParseInt(cond.value);
              var r := FindChild(cs, segment);
              (n.Some? && 1 <= n.value <= |cands| ==> r == Ok(Some(cands[n.value - 1]))) &&
              ((n.None? || n.value < 1 || n.value > |cands|) && |cands| <= MaxInt ==> r == Ok(Some(cands[0])))
  {
    var (name, cond) := ParseSegment(segment);
    var cands := Candidates(cs, name);
    if cands != [] && cond.Some? && !StartsWith(cond.value, "@id='") {
      var n := ParseInt(cond.value);
      if n.Some? {
        // Only Integer.MIN_VALUE - 1 wraps, to Integer.MAX_VALUE.
        var index := Wrap32(n.value - 1);
        if n.value == MinInt {
          assert index == MaxInt;
        } else {
          assert index == n.value - 1;
        }
      }
    }
  }

  /** The candidate loop of `findChildTag`, collecting same-named children in order. */
  method CollectCandidates(cs: seq<Tag>, name: String) returns (cands: seq<nat>)
    ensures cands == Candidates(cs, name)
  {
    cands := [];
    var k := 0;
    while k < |cs|
      invariant 0 <= k <= |cs|
      invariant cands == Candidates(cs[..k], name)
    {
      assert cs[..k + 1][..k] == cs[..k];
      if EqualsIgnoreCase(cs[k].name, name) {
        cands := cands + [k];
      }
      k := k + 1;
    }
    assert cs[..|cs|] == cs;
  }

  /** The segments `findTagByXPath` walks: a leading "/" dropped, then Java's `split("/")`. */
  function XPathSegments(xpath: String): seq<String>
  {
    if StartsWith(xpath, "/") then JavaSplit(xpath[1..], '/') else JavaSplit(xpath, '/')
  }

  /** Following `segments` from the tag at `at`: the path reached, None as soon as a segment matches nothing. */
  function Walk(root: Tag, at: seq<nat>, segments: seq<String>): (r: Result<Option<seq<nat>>, LocatorError>)
    requires ValidPath(root, at)
    ensures r.Ok? && r.value.Some? ==> ValidPath(root, r.value.value) && |r.value.value| == |at| + |segments|
    decreases |segments|
  {
    if segments == [] then Ok(Some(at))
    else
      var step := FindChild(Node(root, at).children, segments[0]);
      if step.Err? then Err(step.error)
      else if step.value.None? then Ok(None)
      else
        ExtendPath(root, at, step.value.value);
        Walk(root, at + [step.value.value], segments[1..])
  }

  lemma {:induction false} ExtendPath(root: Tag, p: seq<nat>, i: nat)
    requires ValidPath(root, p) && i < |Node(root, p).children|
    ensures ValidPath(root, p + [i]) && Node(root, p + [i]) == Node(root, p).children[i]
    decreases |p|
  {
    if p != [] {
      assert (p + [i])[1..] == p[1..] + [i];
      ExtendPath(root.children[p[0]], p[1..], i);
    }
  }

  /** `findTagByXPath`: the loop over the segments, starting among the root's children. */
  method FindTagByXPath(root: Tag, xpath: String) returns (r: Result<Option<seq<nat>>, LocatorError>)
    ensures r == Walk(root, [], XPathSegments(xpath))
  {
    var segments := XPathSegments(xpath);
    var current: seq<nat> := [];
    var k := 0;
    while k < |segments|
      invariant 0 <= k <= |segments|
      invariant ValidPath(root, current)
      invariant Walk(root, [], segments) == Walk(root, current, segments[k..])
    {
      var step := FindChild(Node(root, current).children, segments[k]);
      assert segments[k..][1..] == segments[k + 1..];
      if step.Err? {
        return Err(step.error);
      }
      if step.value.None? {
        return Ok(None);
      }
      ExtendPath(root, current, step.value.value);
      current := current + [step.value.value];
      k := k + 1;
    }
    r := Ok(Some(current));
  }

  // ---------------------------------------------------------------- search by name and SQL id

  /** The tag `findTagByIdAndNameRecursive` accepts: the name ignoring case, and an id equal to the SQL id or ending it after a '.'. */
  predicate Matches(t: Tag, tagName: String, sqlId: String)
  {
    EqualsIgnoreCase(t.name, tagName) && t.id.Some? &&
    (sqlId == t.id.value || EndsWith(sqlId, "." + t.id.value))
  }

  /** `findTagByIdAndNameRecursive`: a pre-order search returning the first matching tag. */
  function FindByIdAndName(t: Tag, tagName: String, sqlId: String): (r: Option<seq<nat>>)
    ensures r.Some? ==> ValidPath(t, r.value) && Matches(Node(t, r.value), tagName, sqlId)
    ensures r.Some? ==> forall q :: ValidPath(t, q) && Matches(Node(t, q), tagName, sqlId) ==> PreOrderLe(r.value, q)
    ensures r.None? ==> forall q :: ValidPath(t, q) ==> !Matches(Node(t, q), tagName, sqlId)
    decreases t, 1
  {
    if Matches(t, tagName, sqlId) then Some([])
    else
      var r := FindInChildren(t.children, 0, tagName, sqlId);
      assert r.Some? ==> ValidPath(t, r.value) && Node(t, r.value) == Node(t.children[r.value[0]], r.value[1..]);
      forall q | ValidPath(t, q) && Matches(Node(t, q), tagName, sqlId)
        ensures r.Some? && PreOrderLe(r.value, q)
      {
        assert q != [];
        assert ValidPath(t.children[q[0]], q[1..]) && Node(t, q) == Node(t.children[q[0]], q[1..]);
      }
      r
  }

  /** The search over `cs[i..]`, each subtree in turn; a found path starts with the child's index. */
  function FindInChildren(cs: seq<Tag>, i: nat, tagName: String, sqlId: String): (r: Option<seq<nat>>)
    ensures r.Some? ==> |r.value| > 0 && i <= r.value[0] < |cs| &&
                        ValidPath(cs[r.value[0]], r.value[1..]) && Matches(Node(cs[r.value[0]], r.value[1..]), tagName, sqlId)
    ensures r.Some? ==> forall j, q :: i <= j < |cs| && ValidPath(cs[j], q) && Matches(Node(cs[j], q), tagName, sqlId) ==>
                          PreOrderLe(r.value, [j] + q)
    ensures r.None? ==> forall j, q :: i <= j < |cs| && ValidPath(cs[j], q) ==> !Matches(Node(cs[j], q), tagName, sqlId)
    decreases cs, |cs| - i
  {
    if i >= |cs| then None
    else
      var found := FindByIdAndName(cs[i], tagName, sqlId);
      if found.Some? then
        var r := [i] + found.value;
        assert r[1..] == found.value;
        forall j, q | i <= j < |cs| && ValidPath(cs[j], q) && Matches(Node(cs[j], q), tagName, sqlId)
          ensures PreOrderLe(r, [j] + q)
        {
          assert ([j] + q)[1..] == q;
        }
        Some(r)
      else FindInChildren(cs, i + 1, tagName, sqlId)
  }

  // ---------------------------------------------------------------- one segment back to its tag

  /** Every candidate is counted by `CountNamed` when names that agree ignoring case agree exactly. */
  lemma {:induction false} CandidatesCount(cs: seq<Tag>, name: String)
    requires forall j :: 0 <= j < |cs| && EqualsIgnoreCase(cs[j].name, name) ==> cs[j].name == name
    ensures |Candidates(cs, name)| == CountNamed(cs, name)
  {
    if cs != [] {
      var init := cs[..|cs| - 1];
      forall j | 0 <= j < |init| && EqualsIgnoreCase(init[j].name, name) ensures init[j].name == name {
        assert init[j] == cs[j];
      }
      CandidatesCount(init, name);
      EqualsIgnoreCaseIsEquivalence(name, name, name);
      if cs[|cs| - 1].name == name {
        assert EqualsIgnoreCase(cs[|cs| - 1].name, name);
      }
    }
  }

  /** The candidates of a prefix of the children are a prefix of the candidates. */
  lemma {:induction false} CandidatesPrefix(cs: seq<Tag>, m: nat, name: String)
    requires m <= |cs|
    ensures var c := Candidates(cs[..m], name);
            |c| <= |Candidates(cs, name)| && c == Candidates(cs, name)[..|c|]
    decreases |cs| - m
  {
    if m == |cs| {
      assert cs[..m] == cs;
    } else {
      var init := cs[..|cs| - 1];
      CandidatesPrefix(init, m, name);
      assert init[..m] == cs[..m];
    }
  }

  /** `name[k]` read back by `findChildTag` selects the tag whose position it records. */
  lemma IndexSegmentSelectsTag(cs: seq<Tag>, i: nat)
    requires i < |cs| && cs[i].id.None? && cs[i].name != [] && '[' !in cs[i].name
    requires forall j :: 0 <= j < i && EqualsIgnoreCase(cs[j].name, cs[i].name) ==> cs[j].name == cs[i].name
    requires Position(cs, i) <= MaxInt
    ensures FindChild(cs, Segment(cs[i], Some(Position(cs, i)))) == Ok(Some(i))
  {
    var name := cs[i].name;
    var k := Position(cs, i);
    var digits := NatToString(k);
    var seg := Segment(cs[i], Some(k));
    assert seg == name + "[" + digits + "]";
    IndexOfCharFirst(seg, '[', |name|);
    assert EndsWith(seg, "]");
    ParseSegmentAt(seg, name, digits);
    CandidatesBefore(cs, i);
    CandidateAtPosition(cs, i);
    assert digits[0] != '@';
    assert !StartsWith(digits, "@id='");
    ParseIntOfNatToString(k);
    assert Wrap32(k - 1) == k - 1;
  }

  /** The `k`-th candidate for a tag's own name is that tag, when `k - 1` candidates precede it. */
  lemma CandidateAtPosition(cs: seq<Tag>, i: nat)
    requires i < |cs|
    requires |Candidates(cs[..i], cs[i].name)| == Position(cs, i) - 1
    ensures Position(cs, i) <= |Candidates(cs, cs[i].name)|
    ensures Candidates(cs, cs[i].name)[Position(cs, i) - 1] == i
  {
    var name := cs[i].name;
    CandidatesThrough(cs, i);
    CandidatesPrefix(cs, i + 1, name);
    LastOfPrefix(Candidates(cs, name), Candidates(cs[..i + 1], name), Candidates(cs[..i], name), i);
  }

  /** When `p + [x]` starts `full`, `x` sits in `full` at index `|p|`. */
  lemma LastOfPrefix(full: seq<nat>, c: seq<nat>, p: seq<nat>, x: nat)
    requires c == p + [x] && |c| <= |full| && c == full[..|c|]
    ensures |p| < |full| && full[|p|] == x
  {
    assert c[|p|] == x;
  }

  /** The candidates before `i` are exactly the same-named siblings before it. */
  lemma CandidatesBefore(cs: seq<Tag>, i: nat)
    requires i < |cs|
    requires forall j :: 0 <= j < i && EqualsIgnoreCase(cs[j].name, cs[i].name) ==> cs[j].name == cs[i].name
    ensures |Candidates(cs[..i], cs[i].name)| == Position(cs, i) - 1
  {
    var name := cs[i].name;
    forall j | 0 <= j < |cs[..i]| && EqualsIgnoreCase(cs[..i][j].name, name) ensures cs[..i][j].name == name {
      assert cs[..i][j] == cs[j];
    }
    CandidatesCount(cs[..i], name);
  }

  /** Taking child `i` in adds `i` as the last candidate for its own name. */
  lemma CandidatesThrough(cs: seq<Tag>, i: nat)
    requires i < |cs|
    ensures Candidates(cs[..i + 1], cs[i].name) == Candidates(cs[..i], cs[i].name) + [i]
  {
    var name := cs[i].name;
    EqualsIgnoreCaseIsEquivalence(name, name, name);
    assert cs[..i + 1][..i] == cs[..i];
    assert cs[..i + 1][i] == cs[i];
  }

  /** `name[@id='id']` read back selects the first same-named sibling with exactly that id. */
  lemma IdSegmentSelectsTag(cs: seq<Tag>, i: nat, position: Option<nat>)
    requires i < |cs| && cs[i].id.Some? && cs[i].name != [] && '[' !in cs[i].name && '\'' !in cs[i].id.value
    requires forall j :: 0 <= j < i && EqualsIgnoreCase(cs[j].name, cs[i].name) ==> cs[j].id != cs[i].id
    ensures FindChild(cs, Segment(cs[i], position)) == Ok(Some(i))
  {
    var name, id := cs[i].name, cs[i].id.value;
    IdSegmentParses(cs[i], position);
    IdCondition(id);
    var cands := Candidates(cs, name);
    EqualsIgnoreCaseIsEquivalence(name, name, name);
    assert i in cands;
    var p :| 0 <= p < |cands| && cands[p] == i;
    FirstWithIdAt(cs, cands, p, id);
  }

  /** The segment of a tag with an id splits into its name and the condition `@id='id'`. */
  lemma IdSegmentParses(t: Tag, position: Option<nat>)
    requires t.id.Some? && t.name != [] && '[' !in t.name && '\'' !in t.id.value
    ensures ParseSegment(Segment(t, position)) == (t.name, Some("@id='" + t.id.value + "'"))
  {
    var name, id := t.name, t.id.value;
    EscapeNoApostrophe(id);
    var cond := "@id='" + id + "'";
    var seg := Segment(t, position);
    assert seg == name + "[" + cond + "]";
    IndexOfCharFirst(seg, '[', |name|);
    ParseSegmentAt(seg, name, cond);
  }

  /** `findChildTag` reads the id back from between `@id='` and the closing quote. */
  lemma IdCondition(id: String)
    ensures var cond := "@id='" + id + "'";
            StartsWith(cond, "@id='") && |cond| - 1 >= 5 && cond[5..|cond| - 1] == id
  {
    var cond := "@id='" + id + "'";
    assert cond[..5] == "@id='";
    assert cond[5..|cond| - 1] == id;
  }

  /** A segment with '[' first after a non-empty name and ']' last splits there. */
  lemma ParseSegmentAt(seg: String, name: String, cond: String)
    requires seg == name + "[" + cond + "]" && name != [] && '[' !in name
    requires IndexOfChar(seg, '[') == |name|
    ensures ParseSegment(seg) == (name, Some(cond))
  {
    assert EndsWith(seg, "]");
    assert seg[..|name|] == name;
    assert seg[|name| + 1..|seg| - 1] == cond;
  }

  /** The exact-id search stops at the candidate at `p` when no earlier candidate has that id. */
  lemma {:induction false} FirstWithIdAt(cs: seq<Tag>, cands: seq<nat>, p: nat, target: String)
    requires forall k :: 0 <= k < |cands| ==> cands[k] < |cs|
    requires forall k, l :: 0 <= k < l < |cands| ==> cands[k] < cands[l]
    requires p < |cands| && cs[cands[p]].id == Some(target)
    requires forall j :: 0 <= j < cands[p] && j in cands ==> cs[j].id != Some(target)
    ensures FirstWithId(cs, cands, target, true) == Some(cands[p])
    decreases p
  {
    if p > 0 {
      assert cands[0] < cands[p] && cands[0] in cands;
      assert forall j :: j in cands[1..] ==> j in cands;
      FirstWithIdAt(cs, cands[1..], p - 1, target);
    }
  }

  // ---------------------------------------------------------------- findXmlTagByInfo

  /** What the locator sees of a file: whether PSI gave it a document, and its root tag. */
  datatype XmlFileView = XmlFileView(hasDocument: bool, root: Option<Tag>)

  /** The fields of an element record the locator reads; a None xpath is a null one. */
  datatype TagQuery = TagQuery(tagName: String, sqlId: String, xpath: Option<String>, lineNumber: int)

  /** Where a lookup ends: a tag (by path from the root), nothing, or an exception. */
  datatype Located = Found(path: seq<nat>) | NotFound | Failed(error: LocatorError)

  const MapperXPath: String := "/mapper"

  predicate IsMapperQuery(q: TagQuery) { EqualsIgnoreCase(q.tagName, "mapper") }

  /** `findFirstMatchingTagName`: the root if its name matches, else the first such child of the root. */
  function FirstMatchingTagName(root: Tag, tagName: String): (r: Option<seq<nat>>)
    ensures r.Some? ==> ValidPath(root, r.value) && |r.value| <= 1 && EqualsIgnoreCase(Node(root, r.value).name, tagName)
    ensures r.None? <==> !EqualsIgnoreCase(root.name, tagName) && Candidates(root.children, tagName) == []
  {
    if EqualsIgnoreCase(root.name, tagName) then Some([])
    else
      var cands := Candidates(root.children, tagName);
      if cands == [] then None
      else
        assert ValidPath(root.children[cands[0]], []);
        Some([cands[0]])
  }

  /**
   * `findXmlTagByInfo`. `file` is None when the path names no XML file; `byLine` is what the
   * line-number lookup, which works on document offsets, finds.
   */
  function FindXmlTagByInfo(file: Option<XmlFileView>, q: TagQuery, byLine: Option<seq<nat>>): (r: Located)
    ensures r.Found? && file.Some? && file.value.root.Some? && Some(r.path) != byLine ==>
              ValidPath(file.value.root.value, r.path)
    ensures file.None? ==> r == NotFound
  {
    if file.None? then NotFound
    else if !file.value.hasDocument then
      // Without a document the root's first sub-tag stands in for the mapper tag.
      if file.value.root.None? then Failed(NullPointer)
      else if |file.value.root.value.children| > 0 && IsMapperQuery(q) then
        if q.xpath.None? then Failed(NullPointer)
        else if q.xpath.value == MapperXPath then
          assert ValidPath(file.value.root.value.children[0], []);
          Found([0])
        else NotFound
      else NotFound
    else if file.value.root.None? then NotFound
    else
      var root := file.value.root.value;
      if IsMapperQuery(q) && q.xpath.None? then Failed(NullPointer)
      else if IsMapperQuery(q) && q.xpath.value == MapperXPath then Found([])
      else if q.xpath.None? then Failed(NullPointer)
      else
        var walk := Walk(root, [], XPathSegments(q.xpath.value));
        if walk.Err? then Failed(walk.error)
        else if walk.value.Some? then Found(walk.value.value)
        else
          var byName := FindByIdAndName(root, q.tagName, q.sqlId);
          if byName.Some? then Found(byName.value)
          else if q.lineNumber == 0 && IsMapperQuery(q) then Found([])
          else if q.lineNumber > 0 then (if byLine.Some? then Found(byLine.value) else NotFound)
          else
            var first := FirstMatchingTagName(root, q.tagName);
            if first.Some? then Found(first.value) else NotFound
  }

  /**
   * The strategies in order, for a file with a document and a root tag: a null xpath throws,
   * a mapper record at "/mapper" is the root; otherwise the XPath walk first (its exception
   * passed on), then name and SQL id, then the root for a mapper record at line 0, then the
   * line, then the name alone.
   */
  lemma FindXmlTagByInfoOrder(root: Tag, q: TagQuery, byLine: Option<seq<nat>>)
    ensures var r := FindXmlTagByInfo(Some(XmlFileView(true, Some(root))), q, byLine);
            (q.xpath.None? ==> r == Failed(NullPointer)) &&
            (q.xpath.Some? && IsMapperQuery(q) && q.xpath.value == MapperXPath ==> r == Found([]))
    ensures q.xpath.Some? && !(IsMapperQuery(q) && q.xpath.value == MapperXPath) ==>
            var walk := Walk(root, [], XPathSegments(q.xpath.value));
            var byName := FindByIdAndName(root, q.tagName, q.sqlId);
            var first := FirstMatchingTagName(root, q.tagName);
            var r := FindXmlTagByInfo(Some(XmlFileView(true, Some(root))), q, byLine);
            (walk.Err? ==> r == Failed(walk.error)) &&
            (walk.Ok? && walk.value.Some? ==> r == Found(walk.value.value)) &&
            (walk == Ok(None) && byName.Some? ==> r == Found(byName.value)) &&
            (walk == Ok(None) && byName.None? && q.lineNumber == 0 && IsMapperQuery(q) ==> r == Found([])) &&
            (walk == Ok(None) && byName.None? && q.lineNumber > 0 ==>
               r == (if byLine.Some? then Found(byLine.value) else NotFound)) &&
            (walk == Ok(None) && byName.None? && (q.lineNumber < 0 || (q.lineNumber == 0 && !IsMapperQuery(q))) ==>
               r == (if first.Some? then Found(first.value) else NotFound))
  {
  }

  /** A mapper query with xpath "/mapper" returns the root at once, whatever else the record holds. */
  lemma MapperShortcut(root: Tag, tagName: String, sqlId: String, line: int, byLine: Option<seq<nat>>)
    requires EqualsIgnoreCase(tagName, "mapper")
    ensures FindXmlTagByInfo(Some(XmlFileView(true, Some(root))), TagQuery(tagName, sqlId, Some(MapperXPath), line), byLine) == Found([])
  {
  }

  // ---------------------------------------------------------------- generated paths are not found by the XPath step

  /**
   * The walk starts among the root's children while a generated path starts with the root's
   * own segment, so when no child of the root shares its name the XPath step finds nothing
   * and the search falls through to the later strategies.
   */
  lemma GeneratedPathMissesRoot(root: Tag, path: seq<nat>)
    requires ValidPath(root, path)
    requires root.name != [] && '[' !in root.name
    requires forall d :: 0 <= d < |Segments(root, path)| ==> '/' !in Segments(root, path)[d]
    requires Candidates(root.children, root.name) == []
    ensures Walk(root, [], XPathSegments(XPath(root, path))) == Ok(None)
  {
    var segs := Segments(root, path);
    var joined := Join(segs, '/');
    var xp := XPath(root, path);
    assert xp[..1] == "/" && xp[1..] == joined;
    SplitJoin(segs, '/');
    var walked := XPathSegments(xp);
    assert walked != [] && walked[0] == segs[0] by {
      if '/' in joined {
        assert walked == DropTrailingEmpty(segs);
        RootSegmentNonEmpty(root, path);
      } else {
        SplitNoSeparator(joined, '/');
        assert walked == [joined] && [joined] == segs;
      }
    }
    RootSegmentName(root, path);
  }

  lemma RootSegmentNonEmpty(root: Tag, path: seq<nat>)
    requires ValidPath(root, path) && root.name != []
    ensures Segments(root, path)[0] != [] && DropTrailingEmpty(Segments(root, path)) != []
  {
    var segs := Segments(root, path);
    XPathShape(root, path, 0);
    assert path[..0] == [];
  }

  /** The root's own segment reads back as the root's name. */
  lemma RootSegmentName(root: Tag, path: seq<nat>)
    requires ValidPath(root, path) && root.name != [] && '[' !in root.name
    ensures ParseSegment(Segments(root, path)[0]).0 == root.name
  {
    var seg := Segments(root, path)[0];
    assert seg == Segment(root, None);
    if root.id.Some? {
      var cond := "@id='" + Escape(root.id.value) + "'";
      assert seg == root.name + "[" + cond + "]";
      IndexOfCharFirst(seg, '[', |root.name|);
      ParseSegmentAt(seg, root.name, cond);
    } else {
      assert seg == root.name;
      assert IndexOfChar(seg, '[') == -1;
    }
  }
}
