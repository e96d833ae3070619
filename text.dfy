/**
 * The slice of java.lang.String, Kotlin's String extensions and java.lang.Integer
 * that the plugin relies on, written over `seq<char>`.
 */
module JavaText {
  import opened Wrappers

  type String = seq<char>

  const MinInt: int := -2147483648
  const MaxInt: int := 2147483647

  // ---------------------------------------------------------------- prefixes

  predicate StartsWith(s: String, p: String) { |p| <= |s| && s[..|p|] == p }

  predicate EndsWith(s: String, p: String) { |p| <= |s| && s[|s| - |p|..] == p }

  // ---------------------------------------------------------------- trim

  /** `String.trim` treats every character up to and including U+0020 as white space. */
  predicate IsSpace(c: char) { c <= ' ' }

  function TrimStart(s: String): (r: String)
    ensures |r| <= |s| && r == s[|s| - |r|..]
    ensures forall i :: 0 <= i < |s| - |r| ==> IsSpace(s[i])
    ensures r == [] || !IsSpace(r[0])
  {
    if |s| > 0 && IsSpace(s[0]) then TrimStart(s[1..]) else s
  }

  function TrimEnd(s: String): (r: String)
    ensures |r| <= |s| && r == s[..|r|]
    ensures forall i :: |r| <= i < |s| ==> IsSpace(s[i])
    ensures r == [] || !IsSpace(r[|r| - 1])
  {
    if |s| > 0 && IsSpace(s[|s| - 1]) then TrimEnd(s[..|s| - 1]) else s
  }

  /** `String.trim`: the longest infix that starts and ends with a non-space character. */
  function Trim(s: String): (r: String)
    ensures exists i, j :: 0 <= i <= j <= |s| && r == s[i..j]
    ensures r == [] || (!IsSpace(r[0]) && !IsSpace(r[|r| - 1]))
  {
    var t := TrimStart(s);
    var r := TrimEnd(t);
    SliceOfSuffix(s, |s| - |t|, |r|);
    r
  }

  /** A prefix of a suffix is an infix. */
  lemma SliceOfSuffix(s: String, k: nat, m: nat)
    requires k <= |s| && m <= |s| - k
    ensures s[k..][..m] == s[k..k + m]
  {
  }

  /** `s.trim().isEmpty()` */
  predicate IsBlank(s: String) { Trim(s) == [] }

  lemma BlankIffAllSpace(s: String)
    ensures IsBlank(s) <==> forall i :: 0 <= i < |s| ==> IsSpace(s[i])
  {
  }

  /** Trimming is idempotent. */
  lemma TrimIdempotent(s: String)
    ensures Trim(Trim(s)) == Trim(s)
  {
    var r := Trim(s);
    if r != [] {
      assert TrimStart(r) == r;
      assert TrimEnd(r) == r;
    }
  }

  // ---------------------------------------------------------------- case folding

  function ToLowerAscii(c: char): char
  {
    if 'A' <= c <= 'Z' then (c as int - 'A' as int + 'a' as int) as char else c
  }

  function ToUpperAscii(c: char): char
  {
    if 'a' <= c <= 'z' then (c as int - 'a' as int + 'A' as int) as char else c
  }

  function ToLower(s: String): (r: String)
    ensures |r| == |s| && forall i :: 0 <= i < |s| ==> r[i] == ToLowerAscii(s[i])
  {
    if s == [] then [] else [ToLowerAscii(s[0])] + ToLower(s[1..])
  }

  /** `String.equalsIgnoreCase` restricted to ASCII letters. */
  predicate EqualsIgnoreCase(a: String, b: String)
  {
    |a| == |b| && forall i :: 0 <= i < |a| ==> ToLowerAscii(a[i]) == ToLowerAscii(b[i])
  }

  lemma EqualsIgnoreCaseIsEquivalence(a: String, b: String, c: String)
    ensures EqualsIgnoreCase(a, a)
    ensures EqualsIgnoreCase(a, b) ==> EqualsIgnoreCase(b, a)
    ensures EqualsIgnoreCase(a, b) && EqualsIgnoreCase(b, c) ==> EqualsIgnoreCase(a, c)
  {
  }

  // ---------------------------------------------------------------- searching

  /** `s.indexOf(c, from)`: a negative start counts as 0, a miss is -1. */
  function IndexOfCharFrom(s: String, c: char, from: int): (r: int)
    ensures r == -1 || (0 <= from <= r < |s| || (from < 0 && 0 <= r < |s|))
    ensures r >= 0 ==> s[r] == c && forall k :: (if from < 0 then 0 else from) <= k < r ==> s[k] != c
    ensures r == -1 <==> forall k :: (if from < 0 then 0 else from) <= k < |s| ==> s[k] != c
    decreases |s| - from
  {
    if from < 0 then IndexOfCharFrom(s, c, 0)
    else if from >= |s| then -1
    else if s[from] == c then from
    else IndexOfCharFrom(s, c, from + 1)
  }

  function IndexOfChar(s: String, c: char): int { IndexOfCharFrom(s, c, 0) }

  lemma IndexOfCharFirst(s: String, c: char, i: nat)
    requires i < |s| && s[i] == c && forall k :: 0 <= k < i ==> s[k] != c
    ensures IndexOfChar(s, c) == i
  {
  }

  /** `s.lastIndexOf(c)` */
  function LastIndexOfChar(s: String, c: char): (r: int)
    ensures -1 <= r < |s|
    ensures r >= 0 ==> s[r] == c && forall k :: r < k < |s| ==> s[k] != c
    ensures r == -1 <==> c !in s
  {
    if s == [] then -1
    else if s[|s| - 1] == c then |s| - 1
    else LastIndexOfChar(s[..|s| - 1], c)
  }

  predicate OccursAt(s: String, t: String, i: int)
  {
    0 <= i && i + |t| <= |s| && s[i..i + |t|] == t
  }

  /** `s.indexOf(t, from)` for a substring. */
  function IndexOfFrom(s: String, t: String, from: nat): (r: int)
    ensures r == -1 || (from <= r && OccursAt(s, t, r))
    ensures r >= 0 ==> forall k :: from <= k < r ==> !OccursAt(s, t, k)
    ensures r == -1 ==> forall k :: from <= k ==> !OccursAt(s, t, k)
    decreases |s| - from
  {
    if from + |t| > |s| then -1
    else if s[from..from + |t|] == t then from
    else IndexOfFrom(s, t, from + 1)
  }

  /** `s.indexOf(t)` */
  function IndexOf(s: String, t: String): int { IndexOfFrom(s, t, 0) }

  // ---------------------------------------------------------------- replace

  /** `String.replace(target, replacement)`: every occurrence, scanning left to right without overlap. */
  function ReplaceAll(s: String, t: String, r: String): String
    requires |t| > 0
    decreases |s|
  {
    if |s| < |t| then s
    else if s[..|t|] == t then r + ReplaceAll(s[|t|..], t, r)
    else [s[0]] + ReplaceAll(s[1..], t, r)
  }

  /** Text that cannot hold the target's first character passes through unchanged. */
  lemma {:induction false} ReplaceAllAbsent(s: String, t: String, r: String)
    requires |t| > 0 && t[0] !in s
    ensures ReplaceAll(s, t, r) == s
    decreases |s|
  {
    if |s| >= |t| {
      assert s[..|t|][0] == s[0];
      ReplaceAllAbsent(s[1..], t, r);
    }
  }

  /** A prefix free of the target's first character is copied and the scan continues after it. */
  lemma {:induction false} ReplaceAllSkipsPrefix(p: String, s: String, t: String, r: String)
    requires |t| > 0 && t[0] !in p
    ensures ReplaceAll(p + s, t, r) == p + ReplaceAll(s, t, r)
    decreases |p|
  {
    if p != [] {
      var ps := p + s;
      if |ps| < |t| {
        ReplaceAllShort(s, t, r);
        ReplaceAllShort(ps, t, r);
      } else {
        assert p[0] in p && ps[0] == p[0];
        assert ps[..|t|][0] == p[0] && ps[..|t|] != t;
        assert ps[1..] == p[1..] + s;
        ReplaceAllSkipsPrefix(p[1..], s, t, r);
        assert p == [p[0]] + p[1..];
      }
    } else {
      assert p + s == s;
    }
  }

  lemma ReplaceAllShort(s: String, t: String, r: String)
    requires 0 < |t| && |s| < |t|
    ensures ReplaceAll(s, t, r) == s
  {
  }

  /** An occurrence at the front is replaced and the scan resumes right after it. */
  lemma ReplaceAllLeading(s: String, t: String, r: String)
    requires |t| > 0
    ensures ReplaceAll(t + s, t, r) == r + ReplaceAll(s, t, r)
  {
    assert (t + s)[..|t|] == t;
    assert (t + s)[|t|..] == s;
  }

  // ---------------------------------------------------------------- split / join

  /** Kotlin `split(c)`: every separator ends a token, empty tokens included. */
  function Split(s: String, c: char): (r: seq<String>)
    ensures |r| >= 1
    decreases |s|
  {
    if s == [] then [[]]
    else
      var tail := Split(s[1..], c);
      if s[0] == c then [[]] + tail else [[s[0]] + tail[0]] + tail[1..]
  }

  function Join(ts: seq<String>, c: char): String
    requires |ts| >= 1
  {
    if |ts| == 1 then ts[0] else ts[0] + [c] + Join(ts[1..], c)
  }

  function Count(s: String, c: char): nat
  {
    if s == [] then 0 else (if s[0] == c then 1 else 0) + Count(s[1..], c)
  }

  /** Splitting then joining gives the input back, with one token more than separators. */
  lemma JoinSplit(s: String, c: char)
    ensures Join(Split(s, c), c) == s
    ensures |Split(s, c)| == Count(s, c) + 1
    ensures forall i :: 0 <= i < |Split(s, c)| ==> c !in Split(s, c)[i]
  {
    JoinOfSplit(s, c);
    SplitCount(s, c);
    SplitTokensFree(s, c);
  }

  /** A character glued to the first token comes first in the join. */
  lemma JoinConsHead(x: char, tail: seq<String>, c: char)
    requires |tail| >= 1
    ensures Join([[x] + tail[0]] + tail[1..], c) == [x] + Join(tail, c)
  {
    var r := [[x] + tail[0]] + tail[1..];
    assert r[1..] == tail[1..];
  }

  lemma {:induction false} JoinOfSplit(s: String, c: char)
    ensures Join(Split(s, c), c) == s
    decreases |s|
  {
    if s != [] {
      JoinOfSplit(s[1..], c);
      var tail := Split(s[1..], c);
      if s[0] == c {
        assert ([[]] + tail)[1..] == tail;
      } else {
        JoinConsHead(s[0], tail, c);
      }
      assert s == [s[0]] + s[1..];
    }
  }

  lemma {:induction false} SplitCount(s: String, c: char)
    ensures |Split(s, c)| == Count(s, c) + 1
    decreases |s|
  {
    if s != [] {
      SplitCount(s[1..], c);
    }
  }

  lemma {:induction false} SplitTokensFree(s: String, c: char)
    ensures forall i :: 0 <= i < |Split(s, c)| ==> c !in Split(s, c)[i]
    decreases |s|
  {
    if s != [] {
      SplitTokensFree(s[1..], c);
      var tail := Split(s[1..], c);
      var r := Split(s, c);
      forall i | 0 <= i < |r| ensures c !in r[i] {
        if s[0] == c {
          if i > 0 { assert r[i] == tail[i - 1]; }
        } else if i > 0 {
          assert r[i] == tail[i];
        }
      }
    }
  }

  /** The converse: tokens free of the separator are recovered by splitting their join. */
  lemma {:induction false} SplitJoin(ts: seq<String>, c: char)
    requires |ts| >= 1
    requires forall i :: 0 <= i < |ts| ==> c !in ts[i]
    ensures Split(Join(ts, c), c) == ts
    decreases |ts|, |ts[0]|
  {
    if |ts| == 1 {
      SplitNoSeparator(ts[0], c);
    } else if ts[0] == [] {
      var rest := Join(ts[1..], c);
      assert Join(ts, c) == [c] + rest;
      assert ([c] + rest)[1..] == rest;
      SplitJoin(ts[1..], c);
      assert [[]] + ts[1..] == ts;
    } else {
      var ts' := [ts[0][1..]] + ts[1..];
      HeadShortened(ts, c);
      SplitJoin(ts', c);
      JoinConsHead(ts[0][0], ts', c);
      SplitConsChar(ts[0][0], Join(ts', c), c);
    }
  }

  /** Dropping the first character of the first token keeps the tokens free of `c`. */
  lemma HeadShortened(ts: seq<String>, c: char)
    requires |ts| >= 1 && ts[0] != []
    requires forall i :: 0 <= i < |ts| ==> c !in ts[i]
    ensures var ts' := [ts[0][1..]] + ts[1..];
            |ts'| == |ts| && [[ts[0][0]] + ts'[0]] + ts'[1..] == ts &&
            forall i :: 0 <= i < |ts'| ==> c !in ts'[i]
  {
    var ts' := [ts[0][1..]] + ts[1..];
    assert ts'[1..] == ts[1..];
    assert [ts[0][0]] + ts[0][1..] == ts[0];
    forall i | 0 <= i < |ts'| ensures c !in ts'[i] {
      if i == 0 {
        assert forall x :: x in ts[0][1..] ==> x in ts[0];
      } else {
        assert ts'[i] == ts[i];
      }
    }
  }

  /** A character other than the separator joins the first token. */
  lemma SplitConsChar(x: char, s: String, c: char)
    requires x != c
    ensures Split([x] + s, c) == [[x] + Split(s, c)[0]] + Split(s, c)[1..]
  {
    assert ([x] + s)[1..] == s;
  }

  lemma {:induction false} SplitNoSeparator(s: String, c: char)
    requires c !in s
    ensures Split(s, c) == [s]
    decreases |s|
  {
    if s != [] {
      SplitNoSeparator(s[1..], c);
      assert [s[0]] + s[1..] == s;
    }
  }

  /** Java's `String.split` for a one-character pattern: no match gives `[s]`, otherwise trailing empty tokens are dropped. */
  function JavaSplit(s: String, c: char): (r: seq<String>)
    ensures c !in s ==> r == [s]
    ensures c in s ==> r == DropTrailingEmpty(Split(s, c))
  {
    if c !in s then [s] else DropTrailingEmpty(Split(s, c))
  }

  function DropTrailingEmpty(ts: seq<String>): (r: seq<String>)
    ensures |r| <= |ts| && r == ts[..|r|]
    ensures r == [] || r[|r| - 1] != []
    ensures forall i :: |r| <= i < |ts| ==> ts[i] == []
  {
    if |ts| > 0 && ts[|ts| - 1] == [] then DropTrailingEmpty(ts[..|ts| - 1]) else ts
  }

  /** Kotlin `substringAfter(c, missing)`. */
  function SubstringAfter(s: String, c: char, missing: String): (r: String)
    ensures c !in s ==> r == missing
    ensures c in s ==> exists i :: 0 <= i < |s| && s[i] == c && c !in s[..i] && r == s[i + 1..]
  {
    var i := IndexOfChar(s, c);
    if i < 0 then missing else s[i + 1..]
  }

  /** Kotlin `substringBefore(c)`: the whole string when `c` is absent. */
  function SubstringBefore(s: String, c: char): (r: String)
    ensures c !in s ==> r == s
    ensures c in s ==> exists i :: 0 <= i < |s| && s[i] == c && r == s[..i] && c !in r
  {
    var i := IndexOfChar(s, c);
    if i < 0 then s else s[..i]
  }

  // ---------------------------------------------------------------- numbers

  function DigitChar(d: nat): char
    requires d < 10
  {
    (('0' as int) + d) as char
  }

  predicate IsDigit(c: char) { '0' <= c <= '9' }

  predicate AllDigits(s: String) { forall i :: 0 <= i < |s| ==> IsDigit(s[i]) }

  /** `Long.toString` / `String.valueOf` of a non-negative number. */
  function NatToString(n: nat): (r: String)
    ensures |r| >= 1 && AllDigits(r)
    ensures |r| > 1 ==> r[0] != '0'
  {
    if n < 10 then [DigitChar(n)] else NatToString(n / 10) + [DigitChar(n % 10)]
  }

  /** The value a string of decimal digits denotes. */
  function DigitsValue(s: String): nat
    requires AllDigits(s)
  {
    if s == [] then 0 else DigitsValue(s[..|s| - 1]) * 10 + (s[|s| - 1] as int - '0' as int)
  }

  /** Printing and reading back a number gives the number. */
  lemma {:induction false} NatToStringValue(n: nat)
    ensures DigitsValue(NatToString(n)) == n
    decreases n
  {
    if n >= 10 {
      NatToStringValue(n / 10);
      var r := NatToString(n);
      assert r[..|r| - 1] == NatToString(n / 10);
    }
  }

  /** Printing is injective. */
  lemma NatToStringInjective(m: nat, n: nat)
    ensures NatToString(m) == NatToString(n) ==> m == n
  {
    NatToStringValue(m);
    NatToStringValue(n);
  }

  /** `Integer.parseInt(s)`: an optional sign, at least one digit, and a value in the 32-bit range; None stands for NumberFormatException. */
  function ParseInt(s: String): (r: Option<int>)
    ensures r.Some? ==> MinInt <= r.value <= MaxInt
    ensures s == [] ==> r.None?
  {
    if |s| > 0 && (s[0] == '-' || s[0] == '+') then
      if |s| > 1 && AllDigits(s[1..]) then
        var v: int := DigitsValue(s[1..]);
        var x: int := if s[0] == '-' then -v else v;
        if MinInt <= x <= MaxInt then Some(x) else None
      else None
    else if |s| > 0 && AllDigits(s) then
      var v := DigitsValue(s);
      if v <= MaxInt then Some(v) else None
    else None
  }

  lemma ParseIntOfNatToString(n: nat)
    requires n <= MaxInt
    ensures ParseInt(NatToString(n)) == Some(n)
  {
    NatToStringValue(n);
  }

  // ---------------------------------------------------------------- comparison and hashing

  /** `String.compareTo`: the difference of the first differing characters, or of the lengths. */
  function Compare(a: String, b: String): int
  {
    if a == [] || b == [] then |a| - |b|
    else if a[0] != b[0] then a[0] as int - b[0] as int
    else Compare(a[1..], b[1..])
  }

  lemma {:induction false} CompareAntisymmetric(a: String, b: String)
    ensures Compare(a, b) == -Compare(b, a)
    decreases |a|
  {
    if a != [] && b != [] && a[0] == b[0] { CompareAntisymmetric(a[1..], b[1..]); }
  }

  lemma {:induction false} CompareZeroIffEqual(a: String, b: String)
    ensures Compare(a, b) == 0 <==> a == b
    decreases |a|
  {
    if a != [] && b != [] && a[0] == b[0] {
      CompareZeroIffEqual(a[1..], b[1..]);
      assert a == [a[0]] + a[1..] && b == [b[0]] + b[1..];
    }
  }

  lemma {:induction false} CompareTransitive(a: String, b: String, c: String)
    requires Compare(a, b) < 0 && Compare(b, c) < 0
    ensures Compare(a, c) < 0
    decreases |a|
  {
    if a != [] && b != [] && c != [] && a[0] == b[0] && b[0] == c[0] {
      CompareTransitive(a[1..], b[1..], c[1..]);
    }
  }

  /** `Integer.compare` */
  function IntCompare(x: int, y: int): (r: int)
    ensures r == -1 || r == 0 || r == 1
    ensures r < 0 <==> x < y
    ensures r == 0 <==> x == y
  {
    if x < y then -1 else if x == y then 0 else 1
  }

  /** Two's-complement wrap-around of Java `int` arithmetic. */
  function Wrap32(x: int): (r: int)
    ensures MinInt <= r <= MaxInt
    ensures MinInt <= x <= MaxInt ==> r == x
  {
    (x - MinInt) % 0x1_0000_0000 + MinInt
  }

  /** `String.hashCode`: s[0]*31^(n-1) + ... + s[n-1] in `int` arithmetic. */
  function StringHash(s: String): (r: int)
    ensures MinInt <= r <= MaxInt
  {
    if s == [] then 0 else Wrap32(31 * StringHash(s[..|s| - 1]) + s[|s| - 1] as int)
  }

  /** `Objects.hash(v0, ..., vn)` over the element hashes: start at 1, then `31 * h + e` per element. */
  function HashAll(hs: seq<int>): (r: int)
    ensures MinInt <= r <= MaxInt
  {
    if hs == [] then 1 else Wrap32(31 * HashAll(hs[..|hs| - 1]) + hs[|hs| - 1])
  }

  // ---------------------------------------------------------------- nullable strings

  /** `String.valueOf` of a string reference, where None is `null`. */
  function Show(o: Option<String>): String
  {
    if o.None? then "null" else o.value
  }

  /** `String.join("", parts)`, which prints a null part as "null". */
  function Concat(parts: seq<Option<String>>): String
  {
    if parts == [] then [] else Show(parts[0]) + Concat(parts[1..])
  }

  lemma {:induction false} ConcatAppend(a: seq<Option<String>>, b: seq<Option<String>>)
    ensures Concat(a + b) == Concat(a) + Concat(b)
    decreases |a|
  {
    if a == [] {
      assert a + b == b;
    } else {
      assert (a + b)[1..] == a[1..] + b;
      ConcatAppend(a[1..], b);
    }
  }
}
