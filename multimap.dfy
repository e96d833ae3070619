/**
 * The two ways the parsers and caches fill a Java map from a sequence of (key, value) entries:
 * `computeIfAbsent(k, new ArrayList).add(v)`, which collects every value under its key, and
 * `put(k, v)`, where a later entry replaces an earlier one.
 */
module Multimap {
  import opened JavaText

  /** The values filed under key `k`, in entry order. */
  function ValuesOf<V(!new)>(es: seq<(String, V)>, k: String): (r: seq<V>)
    ensures forall i :: i in r <==> (k, i) in es
    decreases |es|
  {
    if es == [] then []
    else ValuesOf(es[..|es| - 1], k) + (if es[|es| - 1].0 == k then [es[|es| - 1].1] else [])
  }

  lemma {:induction false} ValuesOfAppend<V(!new)>(a: seq<(String, V)>, b: seq<(String, V)>, k: String)
    ensures ValuesOf(a + b, k) == ValuesOf(a, k) + ValuesOf(b, k)
    decreases |b|
  {
    if b == [] {
      assert a + b == a;
    } else {
      var n := |b| - 1;
      assert (a + b)[..|a + b| - 1] == a + b[..n];
      ValuesOfAppend(a, b[..n], k);
    }
  }

  lemma ValuesOfNonEmpty<V(!new)>(es: seq<(String, V)>, k: String)
    ensures ValuesOf(es, k) != [] <==> exists i :: (k, i) in es
  {
    var r := ValuesOf(es, k);
    if r != [] {
      assert r[0] in r;
    }
  }

  /** `r` files under each key that occurs in `es` exactly the values entered under it, in entry order. */
  ghost predicate IsGrouping<V(!new)>(es: seq<(String, V)>, r: map<String, seq<V>>)
  {
    (forall k :: k in r <==> exists i :: (k, i) in es)
    && forall k :: k in r ==> r[k] == ValuesOf(es, k) && r[k] != []
  }

  /** `computeIfAbsent(k, new ArrayList).add(i)` for each entry in turn. */
  function Group<V(!new)>(es: seq<(String, V)>): map<String, seq<V>>
    decreases |es|
  {
    if es == [] then map[]
    else
      var m := Group(es[..|es| - 1]);
      var e := es[|es| - 1];
      m[e.0 := (if e.0 in m then m[e.0] else []) + [e.1]]
  }

  /** Grouping files under each key that occurs exactly the values entered under it, in entry order. */
  lemma {:induction false} GroupIsGrouping<V(!new)>(es: seq<(String, V)>)
    ensures IsGrouping(es, Group(es))
    decreases |es|
  {
    if es != [] {
      GroupIsGrouping(es[..|es| - 1]);
      GroupStep(es, Group(es[..|es| - 1]));
    }
  }

  lemma GroupStep<V(!new)>(es: seq<(String, V)>, m: map<String, seq<V>>)
    requires es != [] && IsGrouping(es[..|es| - 1], m)
    ensures var e := es[|es| - 1];
      IsGrouping(es, m[e.0 := (if e.0 in m then m[e.0] else []) + [e.1]])
  {
    var p := es[..|es| - 1];
    var e := es[|es| - 1];
    assert es == p + [e];
    ValuesOfNonEmpty(p, e.0);
    var r := m[e.0 := (if e.0 in m then m[e.0] else []) + [e.1]];
    forall k ensures k in r <==> exists i :: (k, i) in es {
      if k == e.0 {
        assert (k, e.1) in es;
      } else {
        assert forall i :: (k, i) in es <==> (k, i) in p;
      }
    }
    forall k | k in r ensures r[k] == ValuesOf(es, k) && r[k] != [] {
      assert ValuesOf(es, k) == ValuesOf(p, k) + (if e.0 == k then [e.1] else []);
    }
  }

  /** Entry `j` is the last one filed under key `k`. */
  ghost predicate LastFor<V(!new)>(es: seq<(String, V)>, k: String, j: int)
  {
    0 <= j < |es| && es[j].0 == k && forall l :: j < l < |es| ==> es[l].0 != k
  }

  /** `put(k, i)` for each entry in turn: a later entry with the same key overwrites an earlier one. */
  function LastWins<V(!new)>(es: seq<(String, V)>): (r: map<String, V>)
    ensures forall k :: k in r <==> exists i :: (k, i) in es
    ensures forall k :: k in r ==> exists j :: LastFor(es, k, j) && es[j].1 == r[k]
    decreases |es|
  {
    if es == [] then map[]
    else
      var m := LastWins(es[..|es| - 1]);
      var e := es[|es| - 1];
      assert es == es[..|es| - 1] + [e];
      assert LastFor(es, e.0, |es| - 1);
      assert forall k, j :: k != e.0 && LastFor(es[..|es| - 1], k, j) ==> LastFor(es, k, j);
      m[e.0 := e.1]
  }

  /** One more `computeIfAbsent(..).add(..)`. */
  lemma GroupSnoc<V(!new)>(es: seq<(String, V)>, e: (String, V))
    ensures Group(es + [e]) == Group(es)[e.0 := (if e.0 in Group(es) then Group(es)[e.0] else []) + [e.1]]
  {
    assert (es + [e])[..|es|] == es;
  }

  /** One more `put(..)`. */
  lemma LastWinsSnoc<V(!new)>(es: seq<(String, V)>, e: (String, V))
    ensures LastWins(es + [e]) == LastWins(es)[e.0 := e.1]
  {
    assert (es + [e])[..|es|] == es;
  }

}
