/**
 * The XML tag tree the locators work on, standing in for PSI `XmlTag`s. A tag is addressed
 * by the child indices that lead to it from the root, so that two equal sibling tags are
 * still told apart, as reference identity tells them apart in the plugin.
 */
module XmlTree {
  import opened Wrappers
  import opened JavaText

  /** A tag: its name, its `id` attribute if present, and its sub-tags in document order. */
  datatype Tag = Tag(name: String, id: Option<String>, children: seq<Tag>)

  /** A path of child indices that exists in `t`. */
  predicate ValidPath(t: Tag, p: seq<nat>)
    decreases |p|
  {
    p == [] || (p[0] < |t.children| && ValidPath(t.children[p[0]], p[1..]))
  }

  /** The tag a valid path leads to. */
  function Node(t: Tag, p: seq<nat>): Tag
    requires ValidPath(t, p)
    decreases |p|
  {
    if p == [] then t else Node(t.children[p[0]], p[1..])
  }

  /** Every prefix of a valid path is valid, and one more step leads to a child. */
  lemma {:induction false} PathPrefix(t: Tag, p: seq<nat>, d: nat)
    requires ValidPath(t, p) && d < |p|
    ensures ValidPath(t, p[..d]) && ValidPath(t, p[..d + 1])
    ensures p[d] < |Node(t, p[..d]).children|
    ensures Node(t, p[..d + 1]) == Node(t, p[..d]).children[p[d]]
    decreases d
  {
    if d > 0 {
      PathPrefix(t.children[p[0]], p[1..], d - 1);
      assert p[1..][..d - 1] == p[..d][1..];
      assert p[1..][..d] == p[..d + 1][1..];
    } else {
      assert p[..1][1..] == [];
    }
  }

  /** The path order of a pre-order walk: a tag comes before its descendants and earlier siblings' subtrees before later ones. */
  predicate PreOrderLe(p: seq<nat>, q: seq<nat>)
    decreases |p|
  {
    p == [] || (q != [] && (p[0] < q[0] || (p[0] == q[0] && PreOrderLe(p[1..], q[1..]))))
  }

  lemma {:induction false} PreOrderTotal(p: seq<nat>, q: seq<nat>)
    ensures PreOrderLe(p, q) || PreOrderLe(q, p)
    ensures PreOrderLe(p, q) && PreOrderLe(q, p) ==> p == q
    decreases |p|
  {
    if p != [] && q != [] && p[0] == q[0] {
      PreOrderTotal(p[1..], q[1..]);
      if PreOrderLe(p, q) && PreOrderLe(q, p) {
        assert p == [p[0]] + p[1..] && q == [q[0]] + q[1..];
      }
    }
  }
}
