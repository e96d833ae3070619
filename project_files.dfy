/**
 * The file helpers of the newer tree: the lowercase-hex form of a SHA-256 digest, the
 * digest of one file, the map of digests for a batch of paths, and the recursive collection
 * of source files by extension.
 */
module ProjectFiles {
  import opened Wrappers
  import opened JavaText

  // ---------------------------------------------------------------- hex encoding

  /** A Java `byte`. */
  type JByte = b: int | -128 <= b < 128

  /** `0xff & b`: the byte read as unsigned. */
  function Unsigned(b: JByte): (u: nat)
    ensures u < 256
    ensures u % 256 == b % 256
  {
    if b < 0 then b + 256 else b
  }

  /** The byte whose unsigned reading is `u`. */
  function Signed(u: nat): JByte
    requires u < 256
  {
    if u < 128 then u else u - 256
  }

  function HexDigit(d: nat): char
    requires d < 16
  {
    if d < 10 then ('0' as int + d) as char else ('a' as int + d - 10) as char
  }

  predicate IsLowerHex(c: char) { '0' <= c <= '9' || 'a' <= c <= 'f' }

  /** The digit a lowercase hex character stands for. */
  function HexValue(c: char): (v: nat)
    ensures v < 16
  {
    if '0' <= c <= '9' then c as int - '0' as int
    else if 'a' <= c <= 'f' then c as int - 'a' as int + 10
    else 0
  }

  lemma HexValueOfDigit(d: nat)
    requires d < 16
    ensures IsLowerHex(HexDigit(d)) && HexValue(HexDigit(d)) == d
  {
  }

  /** `Integer.toHexString` of a value below 256: lowercase digits, without leading zeros. */
  function ToHexString(u: nat): (r: String)
    requires u < 256
    ensures 1 <= |r| <= 2
    ensures |r| == 1 <==> u < 16
  {
    if u < 16 then [HexDigit(u)] else [HexDigit(u / 16), HexDigit(u % 16)]
  }

  /** One byte of the digest, padded with '0' when `toHexString` gives a single digit. */
  function HexOfByte(b: JByte): (r: String)
    ensures r == [HexDigit(Unsigned(b) / 16), HexDigit(Unsigned(b) % 16)]
  {
    var hex := ToHexString(Unsigned(b));
    if |hex| == 1 then ['0'] + hex else hex
  }

  /** The whole digest: each byte's two characters, in byte order. */
  function Hex(bs: seq<JByte>): String
  {
    if bs == [] then [] else Hex(bs[..|bs| - 1]) + HexOfByte(bs[|bs| - 1])
  }

  /** Reads a string of hex pairs back into bytes. */
  function Unhex(s: String): seq<JByte>
    requires |s| % 2 == 0
  {
    if s == [] then []
    else Unhex(s[..|s| - 2]) + [Signed(HexValue(s[|s| - 2]) * 16 + HexValue(s[|s| - 1]))]
  }

  /** Two characters per byte: a SHA-256 digest of 32 bytes becomes 64 characters. */
  lemma {:induction false} HexLength(bs: seq<JByte>)
    ensures |Hex(bs)| == 2 * |bs| && |Hex(bs)| % 2 == 0
  {
    if bs != [] {
      HexLength(bs[..|bs| - 1]);
    }
  }

  /** Every character of the encoding is a lowercase hex digit. */
  lemma {:induction false} HexIsLowercase(bs: seq<JByte>)
    ensures forall i :: 0 <= i < |Hex(bs)| ==> IsLowerHex(Hex(bs)[i])
  {
    if bs != [] {
      var u := Unsigned(bs[|bs| - 1]);
      HexIsLowercase(bs[..|bs| - 1]);
      HexValueOfDigit(u / 16);
      HexValueOfDigit(u % 16);
    }
  }

  /** One byte's two characters read back give the byte. */
  lemma HexOfByteDecodes(b: JByte)
    ensures var h := HexOfByte(b); Signed(HexValue(h[0]) * 16 + HexValue(h[1])) == b
  {
    var u := Unsigned(b);
    HexValueOfDigit(u / 16);
    HexValueOfDigit(u % 16);
  }

  lemma EvenPlusTwo(n: nat)
    requires n % 2 == 0
    ensures (n + 2) % 2 == 0
  {
  }

  /** Decoding a string followed by one more pair of characters. */
  lemma UnhexPair(s: String, h: String, t: String)
    requires |s| % 2 == 0 && |h| == 2 && t == s + h
    ensures |t| % 2 == 0 && Unhex(t) == Unhex(s) + [Signed(HexValue(h[0]) * 16 + HexValue(h[1]))]
  {
    assert |t| == |s| + 2;
    EvenPlusTwo(|s|);
    assert t[..|t| - 2] == s;
    assert t[|t| - 2] == h[0] && t[|t| - 1] == h[1];
    assert Unhex(t) == Unhex(t[..|t| - 2]) + [Signed(HexValue(t[|t| - 2]) * 16 + HexValue(t[|t| - 1]))];
  }

  /** Decoding a string followed by one more byte's two characters. */
  lemma UnhexSnoc(s: String, b: JByte, t: String)
    requires |s| % 2 == 0 && t == s + HexOfByte(b)
    ensures |t| % 2 == 0 && Unhex(t) == Unhex(s) + [b]
  {
    UnhexPair(s, HexOfByte(b), t);
    HexOfByteDecodes(b);
  }

  /** The encoding of a non-empty digest ends with its last byte's two characters. */
  lemma HexUnfold(bs: seq<JByte>)
    requires bs != []
    ensures Hex(bs) == Hex(bs[..|bs| - 1]) + HexOfByte(bs[|bs| - 1])
  {
  }

  /** A non-empty digest is its prefix followed by its last byte. */
  lemma SplitLast(bs: seq<JByte>)
    requires bs != []
    ensures bs == bs[..|bs| - 1] + [bs[|bs| - 1]]
  {
  }

  /** Reading the bytes unsigned makes the encoding decodable. */
  lemma {:induction false} UnhexHex(bs: seq<JByte>)
    ensures |Hex(bs)| % 2 == 0 && Unhex(Hex(bs)) == bs
  {
    HexLength(bs);
    if bs != [] {
      var p, b := bs[..|bs| - 1], bs[|bs| - 1];
      HexLength(p);
      UnhexHex(p);
      HexUnfold(bs);
      UnhexSnoc(Hex(p), b, Hex(bs));
      SplitLast(bs);
    }
  }

  /** Different digests never share an encoding. */
  lemma HexInjective(a: seq<JByte>, b: seq<JByte>)
    requires Hex(a) == Hex(b)
    ensures a == b
  {
    UnhexHex(a);
    UnhexHex(b);
  }

  /** The loop of `calculateFileDigest` that appends each byte's hex to a StringBuilder. */
  method HexEncode(digest: seq<JByte>) returns (hex: String)
    ensures hex == Hex(digest)
  {
    hex := [];
    var i := 0;
    while i < |digest|
      invariant 0 <= i <= |digest|
      invariant hex == Hex(digest[..i])
    {
      var h := ToHexString(Unsigned(digest[i]));
      if |h| == 1 {
        hex := hex + ['0'];
      }
      hex := hex + h;
      assert digest[..i + 1][..i] == digest[..i];
      i := i + 1;
    }
    assert digest[..i] == digest;
  }

  // ---------------------------------------------------------------- calculateFileDigest

  /**
   * What the file system holds at a path: nothing, something that is not a regular file,
   * or a regular file whose content can be read (None when reading it fails).
   */
  datatype FileEntry = Missing | NotAFile | Regular(content: Option<seq<JByte>>)

  /** The digest `calculateFileDigest` yields for a file system entry. */
  function FileDigest(f: FileEntry, algorithmAvailable: bool, sha256: seq<JByte> -> seq<JByte>): String
  {
    if f.Regular? && f.content.Some? && algorithmAvailable then Hex(sha256(f.content.value)) else []
  }

  /**
   * `calculateFileDigest`: the hex SHA-256 of a readable regular file, and "" for a missing
   * path, a non-file, a read failure or a missing algorithm. SHA-256 itself is a parameter.
   */
  method CalculateFileDigest(f: FileEntry, algorithmAvailable: bool, sha256: seq<JByte> -> seq<JByte>)
    returns (digest: String)
    ensures digest == FileDigest(f, algorithmAvailable, sha256)
    ensures !(f.Regular? && f.content.Some? && algorithmAvailable) ==> digest == []
    ensures f.Regular? && f.content.Some? && algorithmAvailable ==>
              digest == Hex(sha256(f.content.value)) && |digest| == 2 * |sha256(f.content.value)|
  {
    if f.Missing? || f.NotAFile? {
      return [];
    }
    if f.content.None? || !algorithmAvailable {
      return [];
    }
    digest := HexEncode(sha256(f.content.value));
    HexLength(sha256(f.content.value));
  }

  // ---------------------------------------------------------------- calculateFileDigestsParallel

  /** A path whose computed digest made it into the result map. */
  predicate KeptDigest(p: String, cached: map<String, String>)
  {
    p in cached && !IsBlank(cached[p])
  }

  /**
   * `calculateFileDigestsParallel`, with the parallel part given: `cached` holds what the
   * per-file computations left in the digest cache ("" on a timeout or failure, no entry when
   * none was stored), and `completed` says whether all of them finished within the overall
   * timeout. The result keeps the input paths whose cached digest is not blank.
   */
  method CalculateFileDigestsParallel(filePaths: set<String>, cached: map<String, String>, completed: bool)
    returns (r: map<String, String>)
    ensures filePaths == {} || !completed ==> r == map[]
    ensures completed ==> forall p :: p in r <==> p in filePaths && KeptDigest(p, cached)
    ensures forall p :: p in r ==> p in cached && r[p] == cached[p] && !IsBlank(r[p])
  {
    if filePaths == {} {
      return map[];
    }
    if !completed {
      return map[];
    }
    r := map[];
    var rest := filePaths;
    while rest != {}
      invariant rest <= filePaths
      invariant forall p :: p in r <==> p in filePaths - rest && KeptDigest(p, cached)
      invariant forall p :: p in r ==> p in cached && r[p] == cached[p]
      decreases |rest|
    {
      var p :| p in rest;
      rest := rest - {p};
      if p in cached && !IsBlank(cached[p]) {
        r := r[p := cached[p]];
      }
    }
  }

  // ---------------------------------------------------------------- findXmlFilesRecursively

  /** A node of the virtual file system, with the project index's two verdicts on each file. */
  datatype VFile =
    | Dir(valid: bool, children: seq<VFile>)
    | File(path: String, extension: Option<String>, excluded: bool, inSourceContent: bool)

  /** A file is collected when its lower-cased extension is requested, it is not excluded and it is in source content. */
  predicate Accepts(f: VFile, extensions: seq<String>)
  {
    f.File? && f.extension.Some? && ToLower(f.extension.value) in extensions &&
    !f.excluded && f.inSourceContent
  }

  /** The files collected under directory `d`, in traversal order. */
  function Collected(d: VFile, extensions: seq<String>): (r: seq<VFile>)
    ensures forall f :: f in r ==> Accepts(f, extensions)
    decreases d, if d.Dir? then |d.children| + 1 else 0
  {
    if d.File? || !d.valid || |extensions| == 0 then []
    else CollectedIn(d, |d.children|, extensions)
  }

  /** What the first `n` children of `d` contribute. */
  function CollectedIn(d: VFile, n: nat, extensions: seq<String>): (r: seq<VFile>)
    requires d.Dir? && n <= |d.children|
    ensures forall f :: f in r ==> Accepts(f, extensions)
    decreases d, n
  {
    if n == 0 then []
    else
      var c := d.children[n - 1];
      CollectedIn(d, n - 1, extensions) +
        (if c.Dir? then Collected(c, extensions) else if Accepts(c, extensions) then [c] else [])
  }

  /** With no extension requested nothing is collected. */
  lemma NoExtensionsNoFiles(d: VFile)
    ensures Collected(d, []) == []
  {
  }

  /** Every accepted file directly in a valid directory is collected. */
  lemma {:induction false} AcceptedChildCollected(d: VFile, n: nat, i: nat, extensions: seq<String>)
    requires d.Dir? && i < n <= |d.children| && Accepts(d.children[i], extensions)
    ensures d.children[i] in CollectedIn(d, n, extensions)
  {
    if i < n - 1 {
      AcceptedChildCollected(d, n - 1, i, extensions);
    }
  }

  /**
   * `findXmlFilesRecursively`: appends to `result` the accepted files under `d`, descending
   * into sub-directories in child order.
   */
  method FindFilesRecursively(d: VFile, extensions: seq<String>, result: seq<VFile>) returns (r: seq<VFile>)
    ensures r == result + Collected(d, extensions)
    decreases d
  {
    if d.File? || !d.valid || |extensions| == 0 {
      return result;
    }
    r := result;
    var i := 0;
    while i < |d.children|
      invariant 0 <= i <= |d.children|
      invariant r == result + CollectedIn(d, i, extensions)
    {
      var f := d.children[i];
      CollectedInStep(result, d, i, extensions);
      if f.Dir? {
        r := FindFilesRecursively(f, extensions, r);
      } else {
        var extension := if f.extension.Some? then Some(ToLower(f.extension.value)) else None;
        if extension.Some? && extension.value in extensions {
          if f.excluded {
            i := i + 1;
            continue;
          }
          if !f.inSourceContent {
            i := i + 1;
            continue;
          }
          r := r + [f];
        }
      }
      i := i + 1;
    }
  }

  /** Child `i` adds its own contribution after what the children before it gave. */
  lemma CollectedInStep(result: seq<VFile>, d: VFile, i: nat, extensions: seq<String>)
    requires d.Dir? && i < |d.children|
    ensures var c := d.children[i];
            result + CollectedIn(d, i + 1, extensions) ==
            result + CollectedIn(d, i, extensions) +
              (if c.Dir? then Collected(c, extensions) else if Accepts(c, extensions) then [c] else [])
  {
  }
}
