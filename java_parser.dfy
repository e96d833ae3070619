/**
 * The older Java parser: which Java files it accepts, and the maps its parse result builds
 * from the file's top-level classes. A class, method, call or field in a map is given by its
 * position in the file (class number, then member number), which stands for the PSI element.
 */
module JavaParser {
  import opened Wrappers
  import opened JavaText
  import opened JavaExpr
  import opened Multimap

  // ---------------------------------------------------------------- the file, as the parser sees it

  /** A method call inside a method body: whether it resolves to a SqlSession method, and its arguments. */
  datatype CallSite = CallSite(isSqlSession: bool, args: seq<Expr>)

  /**
   * A method: its name, the qualified names of its annotations (None where one does not
   * resolve), and the method calls found in its body (None for a method without a body).
   */
  datatype JMethod = JMethod(name: String, annotations: seq<Option<String>>, body: Option<seq<CallSite>>)

  /** A field: the canonical text of its type and its initializer, if any. */
  datatype JField = JField(typeText: String, initializer: Option<Expr>)

  /** A top-level class of the file, with the three PSI kind flags as the parser reads them. */
  datatype JClass = JClass(
    qualifiedName: String, name: String, isPublic: bool,
    isInterface: bool, isEnum: bool, isAnnotationType: bool,
    annotations: seq<Option<String>>, methods: seq<JMethod>, fields: seq<JField>)

  /** A Java file: its name, package, the path of its virtual file (None without one) and its classes. */
  datatype JavaFile = JavaFile(name: String, packageName: String, path: Option<String>, classes: seq<JClass>)

  // ---------------------------------------------------------------- isValidJavaFile

  const JavaSuffix: String := ".java"
  const UnixTestDir: String := "/src/test/java/"
  const WindowsTestDir: String := "\\src\\test\\java\\"

  /** The annotations that mark a test: JUnit 4, JUnit 5, Spring Boot and TestNG. */
  const TestAnnotations: set<String> := {
    "org.junit.Test", "org.junit.jupiter.api.Test",
    "org.springframework.boot.test.context.SpringBootTest", "org.testng.annotations.Test"
  }

  /** `String.contains`. */
  predicate Contains(s: String, t: String) { IndexOf(s, t) >= 0 }

  predicate IsTestAnnotation(a: Option<String>) { a.Some? && a.value in TestAnnotations }

  /** `hasTestAnnotation`: the loop over an element's annotations. */
  function HasTestAnnotation(anns: seq<Option<String>>): (r: bool)
    ensures r <==> exists i :: 0 <= i < |anns| && IsTestAnnotation(anns[i])
  {
    if anns == [] then false
    else HasTestAnnotation(anns[..|anns| - 1]) || IsTestAnnotation(anns[|anns| - 1])
  }

  /** The inner loop of `isTestClass`: some method of the class carries a test annotation. */
  function AnyTestMethod(ms: seq<JMethod>): (r: bool)
    ensures r <==> exists j :: 0 <= j < |ms| && HasTestAnnotation(ms[j].annotations)
  {
    if ms == [] then false
    else AnyTestMethod(ms[..|ms| - 1]) || HasTestAnnotation(ms[|ms| - 1].annotations)
  }

  /** A class is marked as a test by its own annotations or by one of its methods'. */
  predicate IsTestMarked(c: JClass)
  {
    HasTestAnnotation(c.annotations) || AnyTestMethod(c.methods)
  }

  /** The outer loop of `isTestClass`. */
  function AnyTestMarked(cs: seq<JClass>): (r: bool)
    ensures r <==> exists i :: 0 <= i < |cs| && IsTestMarked(cs[i])
  {
    if cs == [] then false
    else AnyTestMarked(cs[..|cs| - 1]) || IsTestMarked(cs[|cs| - 1])
  }

  /** `isTestClass`: a file under a standard test source directory, or with a test annotation anywhere. */
  function IsTestClass(path: String, cs: seq<JClass>): (r: bool)
    ensures r <==> Contains(path, UnixTestDir) || Contains(path, WindowsTestDir) ||
                   exists i :: 0 <= i < |cs| && IsTestMarked(cs[i])
  {
    Contains(path, UnixTestDir) || Contains(path, WindowsTestDir) || AnyTestMarked(cs)
  }

  /** The loop of `isValidJavaFile` over public classes: each one's name plus ".java" is the file name. */
  function PublicNamesMatch(cs: seq<JClass>, fileName: String): (r: bool)
    ensures r <==> forall i :: 0 <= i < |cs| && cs[i].isPublic ==> cs[i].name + JavaSuffix == fileName
  {
    if cs == [] then true
    else
      var last := cs[|cs| - 1];
      PublicNamesMatch(cs[..|cs| - 1], fileName) && (!last.isPublic || last.name + JavaSuffix == fileName)
  }

  /**
   * `isValidJavaFile`: the file has a virtual file, at least one class, public classes named
   * after the file, and is not a test.
   */
  predicate IsValidJavaFile(f: JavaFile)
  {
    f.path.Some? && |f.classes| != 0 && PublicNamesMatch(f.classes, f.name) && !IsTestClass(f.path.value, f.classes)
  }

  /** A file with an annotated test method anywhere is rejected, whatever its path and names. */
  lemma TestMethodRejects(f: JavaFile, i: nat, j: nat, a: nat)
    requires i < |f.classes| && j < |f.classes[i].methods|
    requires a < |f.classes[i].methods[j].annotations| && IsTestAnnotation(f.classes[i].methods[j].annotations[a])
    ensures !IsValidJavaFile(f)
  {
    if f.path.Some? {
      assert HasTestAnnotation(f.classes[i].methods[j].annotations);
      assert IsTestMarked(f.classes[i]);
    }
  }

  /** In a valid file every public class has the same name: the file's name without ".java". */
  lemma PublicClassesShareName(f: JavaFile, i: nat, j: nat)
    requires IsValidJavaFile(f) && i < |f.classes| && j < |f.classes| && f.classes[i].isPublic && f.classes[j].isPublic
    ensures f.classes[i].name == f.classes[j].name
  {
    var a, b := f.classes[i].name, f.classes[j].name;
    assert a + JavaSuffix == b + JavaSuffix;
    assert a == (a + JavaSuffix)[..|a|] && b == (b + JavaSuffix)[..|b|];
  }

  // ---------------------------------------------------------------- what goes into the maps

  /** A method, call or field by position: class number, method or field number, call number. */
  datatype MethodRef = MethodRef(cls: nat, member: nat)
  datatype CallRef = CallRef(cls: nat, member: nat, call: nat)
  datatype FieldRef = FieldRef(cls: nat, field: nat)

  /** Neither an interface, an enum nor an annotation type. */
  predicate IsPlainClass(c: JClass) { !c.isInterface && !c.isEnum && !c.isAnnotationType }

  /** The classes whose methods go into the interface maps (`toInterfaces`) or into the class maps. */
  predicate Kept(c: JClass, toInterfaces: bool)
  {
    if toInterfaces then c.isInterface else IsPlainClass(c)
  }

  /** Methods are keyed `className + "." + methodName`, so overloads share a key. */
  function MethodKey(c: JClass, m: JMethod): String { c.qualifiedName + "." + m.name }

  /**
   * The key a method call is filed under, if any: a SqlSession call with at least one argument
   * whose first argument folds, without throwing, to a non-null, non-empty string. A fold that
   * throws files nothing here; `ScanThrows` records that the whole parse throws instead.
   */
  function CallKey(call: CallSite): (r: Option<String>)
    ensures r.Some? <==> call.isSqlSession && |call.args| >= 1 && Eval(call.args[0], Intellij).Ok? &&
                         Eval(call.args[0], Intellij).value.Some? && Eval(call.args[0], Intellij).value.value != []
    ensures r.Some? ==> Eval(call.args[0], Intellij) == Ok(r)
  {
    if !call.isSqlSession || |call.args| < 1 then None
    else
      var key := Eval(call.args[0], Intellij);
      if key.Ok? && key.value.Some? && key.value.value != [] then key.value else None
  }

  /** The fold of a SqlSession call's first argument throws. */
  predicate CallThrows(call: CallSite)
  {
    call.isSqlSession && |call.args| >= 1 && Eval(call.args[0], Intellij).Err?
  }

  const JavaLangString: String := "java.lang.String"

  /** `parseExpression` of a field initializer: a missing initializer (`null`) folds to "". */
  function InitializerValue(init: Option<Expr>): Outcome
  {
    if init.None? then Ok(Some([])) else Eval(init.value, Intellij)
  }

  /**
   * The key a field is filed under, if any: a String-typed field whose initializer folds, without
   * throwing, to a non-empty string that starts with the class's qualified name.
   */
  function FieldKey(c: JClass, f: JField): (r: Option<String>)
    ensures r.Some? <==> f.typeText == JavaLangString && InitializerValue(f.initializer).Ok? &&
                         InitializerValue(f.initializer).value.Some? &&
                         InitializerValue(f.initializer).value.value != [] &&
                         StartsWith(InitializerValue(f.initializer).value.value, c.qualifiedName)
    ensures r.Some? ==> InitializerValue(f.initializer) == Ok(r) && r.value != []
  {
    if f.typeText != JavaLangString then None
    else
      var key := InitializerValue(f.initializer);
      if key.Ok? && key.value.Some? && key.value.value != [] && StartsWith(key.value.value, c.qualifiedName)
      then key.value else None
  }

  /** The fold of a String field's initializer throws. */
  predicate FieldThrows(f: JField)
  {
    f.typeText == JavaLangString && InitializerValue(f.initializer).Err?
  }

  /**
   * Some fold `initializeMaps` reaches throws: a SqlSession call's first argument in a plain
   * class's method body (when calls are included), or a String field's initializer. The
   * exception then leaves the parse.
   */
  predicate ScanThrows(cs: seq<JClass>, includeMethodCalls: bool)
  {
    (includeMethodCalls &&
     exists ci, mi, k | 0 <= ci < |cs| && 0 <= mi < |cs[ci].methods| && cs[ci].methods[mi].body.Some? &&
                        0 <= k < |cs[ci].methods[mi].body.value| ::
       IsPlainClass(cs[ci]) && CallThrows(cs[ci].methods[mi].body.value[k]))
    || exists ci, j | 0 <= ci < |cs| && 0 <= j < |cs[ci].fields| :: FieldThrows(cs[ci].fields[j])
  }

  /** A field without an initializer is never filed: it folds to "". */
  lemma UninitializedFieldSkipped(c: JClass, f: JField)
    requires f.initializer.None?
    ensures FieldKey(c, f).None?
  {
  }

  // ---------------------------------------------------------------- the entries, in loop order

  /** Class `c` is the one the class map (or interface map) files under `k`. */
  predicate IsClassFor(cs: seq<JClass>, toInterfaces: bool, k: String, c: nat)
  {
    c < |cs| && Kept(cs[c], toInterfaces) && cs[c].qualifiedName == k
  }

  /** Method `r` is one the class (or interface) method map files under `k`. */
  predicate IsMethodFor(cs: seq<JClass>, toInterfaces: bool, k: String, r: MethodRef)
  {
    r.cls < |cs| && Kept(cs[r.cls], toInterfaces) && r.member < |cs[r.cls].methods|
    && MethodKey(cs[r.cls], cs[r.cls].methods[r.member]) == k
  }

  /** Call `r` is one the method-call map files under `k`. */
  predicate IsCallFor(cs: seq<JClass>, includeMethodCalls: bool, k: String, r: CallRef)
  {
    includeMethodCalls && r.cls < |cs| && IsPlainClass(cs[r.cls]) && r.member < |cs[r.cls].methods|
    && cs[r.cls].methods[r.member].body.Some? && r.call < |cs[r.cls].methods[r.member].body.value|
    && CallKey(cs[r.cls].methods[r.member].body.value[r.call]) == Some(k)
  }

  /** Field `r` is one the static-string-field map files under `k`. */
  predicate IsFieldFor(cs: seq<JClass>, k: String, r: FieldRef)
  {
    r.cls < |cs| && r.field < |cs[r.cls].fields| && FieldKey(cs[r.cls], cs[r.cls].fields[r.field]) == Some(k)
  }

  /** The `put(className, cls)` entries of the first `n` classes. */
  function ClassEntries(cs: seq<JClass>, n: nat, toInterfaces: bool): seq<(String, nat)>
    requires n <= |cs|
  {
    if n == 0 then []
    else ClassEntries(cs, n - 1, toInterfaces) + (if Kept(cs[n - 1], toInterfaces) then [(cs[n - 1].qualifiedName, n - 1)] else [])
  }

  /** The method entries of the first `n` methods of class `ci`. */
  function MethodsOf(cs: seq<JClass>, ci: nat, n: nat): seq<(String, MethodRef)>
    requires ci < |cs| && n <= |cs[ci].methods|
  {
    if n == 0 then []
    else MethodsOf(cs, ci, n - 1) + [(MethodKey(cs[ci], cs[ci].methods[n - 1]), MethodRef(ci, n - 1))]
  }

  /** The method entries of the first `n` classes. */
  function MethodEntries(cs: seq<JClass>, n: nat, toInterfaces: bool): seq<(String, MethodRef)>
    requires n <= |cs|
  {
    if n == 0 then []
    else MethodEntries(cs, n - 1, toInterfaces) + (if Kept(cs[n - 1], toInterfaces) then MethodsOf(cs, n - 1, |cs[n - 1].methods|) else [])
  }

  /** The call entries of the first `n` calls in the body of method `mi` of class `ci`. */
  function CallsOf(cs: seq<JClass>, ci: nat, mi: nat, n: nat): seq<(String, CallRef)>
    requires ci < |cs| && mi < |cs[ci].methods| && cs[ci].methods[mi].body.Some?
    requires n <= |cs[ci].methods[mi].body.value|
  {
    if n == 0 then []
    else
      var key := CallKey(cs[ci].methods[mi].body.value[n - 1]);
      CallsOf(cs, ci, mi, n - 1) + (if key.Some? then [(key.value, CallRef(ci, mi, n - 1))] else [])
  }

  /** The call entries of the first `n` methods of class `ci`: none unless calls are included. */
  function CallsInMethods(cs: seq<JClass>, ci: nat, n: nat, includeMethodCalls: bool): seq<(String, CallRef)>
    requires ci < |cs| && n <= |cs[ci].methods|
  {
    if n == 0 then []
    else
      var m := cs[ci].methods[n - 1];
      CallsInMethods(cs, ci, n - 1, includeMethodCalls)
      + (if includeMethodCalls && m.body.Some? then CallsOf(cs, ci, n - 1, |m.body.value|) else [])
  }

  /** The call entries of the first `n` classes: only plain classes are searched. */
  function CallEntries(cs: seq<JClass>, n: nat, includeMethodCalls: bool): seq<(String, CallRef)>
    requires n <= |cs|
  {
    if n == 0 then []
    else
      var own := if IsPlainClass(cs[n - 1]) then CallsInMethods(cs, n - 1, |cs[n - 1].methods|, includeMethodCalls) else [];
      CallEntries(cs, n - 1, includeMethodCalls) + own
  }

  /** The field entries of the first `n` fields of class `ci`. */
  function FieldsOf(cs: seq<JClass>, ci: nat, n: nat): seq<(String, FieldRef)>
    requires ci < |cs| && n <= |cs[ci].fields|
  {
    if n == 0 then []
    else
      var key := FieldKey(cs[ci], cs[ci].fields[n - 1]);
      FieldsOf(cs, ci, n - 1) + (if key.Some? then [(key.value, FieldRef(ci, n - 1))] else [])
  }

  /** The field entries of the first `n` classes, of every kind. */
  function FieldEntries(cs: seq<JClass>, n: nat): seq<(String, FieldRef)>
    requires n <= |cs|
  {
    if n == 0 then [] else FieldEntries(cs, n - 1) + FieldsOf(cs, n - 1, |cs[n - 1].fields|)
  }

  // ---------------------------------------------------------------- which entries there are

  lemma {:induction false} ClassEntriesMembers(cs: seq<JClass>, n: nat, toInterfaces: bool, k: String, c: nat)
    requires n <= |cs|
    ensures (k, c) in ClassEntries(cs, n, toInterfaces) <==> c < n && IsClassFor(cs, toInterfaces, k, c)
  {
    if n > 0 {
      ClassEntriesMembers(cs, n - 1, toInterfaces, k, c);
    }
  }

  lemma {:induction false} MethodsOfMembers(cs: seq<JClass>, ci: nat, n: nat, k: String, r: MethodRef)
    requires ci < |cs| && n <= |cs[ci].methods|
    ensures (k, r) in MethodsOf(cs, ci, n) <==>
              r.cls == ci && r.member < n && MethodKey(cs[ci], cs[ci].methods[r.member]) == k
  {
    if n > 0 {
      MethodsOfMembers(cs, ci, n - 1, k, r);
    }
  }

  lemma {:induction false} MethodEntriesMembers(cs: seq<JClass>, n: nat, toInterfaces: bool, k: String, r: MethodRef)
    requires n <= |cs|
    ensures (k, r) in MethodEntries(cs, n, toInterfaces) <==> r.cls < n && IsMethodFor(cs, toInterfaces, k, r)
  {
    if n > 0 {
      MethodEntriesMembers(cs, n - 1, toInterfaces, k, r);
      MethodsOfMembers(cs, n - 1, |cs[n - 1].methods|, k, r);
    }
  }

  lemma {:induction false} CallsOfMembers(cs: seq<JClass>, ci: nat, mi: nat, n: nat, k: String, r: CallRef)
    requires ci < |cs| && mi < |cs[ci].methods| && cs[ci].methods[mi].body.Some?
    requires n <= |cs[ci].methods[mi].body.value|
    ensures (k, r) in CallsOf(cs, ci, mi, n) <==>
              r.cls == ci && r.member == mi && r.call < n && CallKey(cs[ci].methods[mi].body.value[r.call]) == Some(k)
  {
    if n > 0 {
      CallsOfMembers(cs, ci, mi, n - 1, k, r);
    }
  }

  lemma {:induction false} CallsInMethodsMembers(cs: seq<JClass>, ci: nat, n: nat, withCalls: bool, k: String, r: CallRef)
    requires ci < |cs| && n <= |cs[ci].methods|
    ensures (k, r) in CallsInMethods(cs, ci, n, withCalls) <==>
              withCalls && r.cls == ci && r.member < n && cs[ci].methods[r.member].body.Some?
              && r.call < |cs[ci].methods[r.member].body.value|
              && CallKey(cs[ci].methods[r.member].body.value[r.call]) == Some(k)
  {
    if n > 0 {
      CallsInMethodsMembers(cs, ci, n - 1, withCalls, k, r);
      var m := cs[ci].methods[n - 1];
      var prev := CallsInMethods(cs, ci, n - 1, withCalls);
      if withCalls && m.body.Some? {
        var extra := CallsOf(cs, ci, n - 1, |m.body.value|);
        assert CallsInMethods(cs, ci, n, withCalls) == prev + extra;
        CallsOfMembers(cs, ci, n - 1, |m.body.value|, k, r);
      } else {
        assert CallsInMethods(cs, ci, n, withCalls) == prev + [];
        assert (k, r) !in prev + [] || r.member < n - 1;
      }
    }
  }

  lemma {:induction false} CallEntriesMembers(cs: seq<JClass>, n: nat, withCalls: bool, k: String, r: CallRef)
    requires n <= |cs|
    ensures (k, r) in CallEntries(cs, n, withCalls) <==> r.cls < n && IsCallFor(cs, withCalls, k, r)
  {
    if n > 0 {
      CallEntriesMembers(cs, n - 1, withCalls, k, r);
      CallsInMethodsMembers(cs, n - 1, |cs[n - 1].methods|, withCalls, k, r);
    }
  }

  lemma {:induction false} FieldsOfMembers(cs: seq<JClass>, ci: nat, n: nat, k: String, r: FieldRef)
    requires ci < |cs| && n <= |cs[ci].fields|
    ensures (k, r) in FieldsOf(cs, ci, n) <==>
              r.cls == ci && r.field < n && FieldKey(cs[ci], cs[ci].fields[r.field]) == Some(k)
  {
    if n > 0 {
      FieldsOfMembers(cs, ci, n - 1, k, r);
    }
  }

  lemma {:induction false} FieldEntriesMembers(cs: seq<JClass>, n: nat, k: String, r: FieldRef)
    requires n <= |cs|
    ensures (k, r) in FieldEntries(cs, n) <==> r.cls < n && IsFieldFor(cs, k, r)
  {
    if n > 0 {
      FieldEntriesMembers(cs, n - 1, k, r);
      FieldsOfMembers(cs, n - 1, |cs[n - 1].fields|, k, r);
    }
  }

  // ---------------------------------------------------------------- initializeMaps, loop by loop

  /** One step of a `computeIfAbsent(k, ..).add(v)` loop. */
  function AddTo<V>(m: map<String, seq<V>>, k: String, v: V): map<String, seq<V>>
  {
    m[k := (if k in m then m[k] else []) + [v]]
  }

  /** Files method `j` of class `ci` under `className + "." + methodName`. */
  method AddMethod(cs: seq<JClass>, ci: nat, j: nat, m0: map<String, seq<MethodRef>>, ghost before: seq<(String, MethodRef)>)
    returns (m: map<String, seq<MethodRef>>)
    requires ci < |cs| && j < |cs[ci].methods|
    requires m0 == Group(before + MethodsOf(cs, ci, j))
    ensures m == Group(before + MethodsOf(cs, ci, j + 1))
  {
    var key := cs[ci].qualifiedName + "." + cs[ci].methods[j].name;
    ghost var es := before + MethodsOf(cs, ci, j);
    assert before + MethodsOf(cs, ci, j + 1) == es + [(key, MethodRef(ci, j))];
    GroupSnoc(es, (key, MethodRef(ci, j)));
    m := AddTo(m0, key, MethodRef(ci, j));
  }

  /** The loop over an interface's methods. */
  method AddMethods(cs: seq<JClass>, ci: nat, m0: map<String, seq<MethodRef>>, ghost before: seq<(String, MethodRef)>)
    returns (m: map<String, seq<MethodRef>>)
    requires ci < |cs|
    requires m0 == Group(before + MethodsOf(cs, ci, 0))
    ensures m == Group(before + MethodsOf(cs, ci, |cs[ci].methods|))
  {
    m := m0;
    for j := 0 to |cs[ci].methods|
      invariant m == Group(before + MethodsOf(cs, ci, j))
    {
      m := AddMethod(cs, ci, j, m, before);
    }
  }

  /** The loop over the calls in one method body. */
  method AddCalls(cs: seq<JClass>, ci: nat, mi: nat, m0: map<String, seq<CallRef>>, ghost before: seq<(String, CallRef)>)
    returns (m: map<String, seq<CallRef>>)
    requires ci < |cs| && mi < |cs[ci].methods| && cs[ci].methods[mi].body.Some?
    requires m0 == Group(before + CallsOf(cs, ci, mi, 0))
    ensures m == Group(before + CallsOf(cs, ci, mi, |cs[ci].methods[mi].body.value|))
  {
    m := m0;
    var calls := cs[ci].methods[mi].body.value;
    for l := 0 to |calls|
      invariant m == Group(before + CallsOf(cs, ci, mi, l))
    {
      ghost var es := before + CallsOf(cs, ci, mi, l);
      var call := calls[l];
      if !call.isSqlSession || |call.args| < 1 {
        assert before + CallsOf(cs, ci, mi, l + 1) == es;
        continue;
      }
      var key := Eval(call.args[0], Intellij);
      if key.Ok? && key.value.Some? && key.value.value != [] {
        assert before + CallsOf(cs, ci, mi, l + 1) == es + [(key.value.value, CallRef(ci, mi, l))];
        GroupSnoc(es, (key.value.value, CallRef(ci, mi, l)));
        m := AddTo(m, key.value.value, CallRef(ci, mi, l));
      } else {
        assert before + CallsOf(cs, ci, mi, l + 1) == es;
      }
    }
  }

  /** The call part of one method: nothing unless calls are included and the method has a body. */
  method AddMethodCalls(cs: seq<JClass>, ci: nat, mi: nat, includeMethodCalls: bool,
                        m0: map<String, seq<CallRef>>, ghost before: seq<(String, CallRef)>)
    returns (m: map<String, seq<CallRef>>)
    requires ci < |cs| && mi < |cs[ci].methods|
    requires m0 == Group(before + CallsInMethods(cs, ci, mi, includeMethodCalls))
    ensures m == Group(before + CallsInMethods(cs, ci, mi + 1, includeMethodCalls))
  {
    m := m0;
    ghost var es := before + CallsInMethods(cs, ci, mi, includeMethodCalls);
    if !includeMethodCalls || cs[ci].methods[mi].body.None? {
      assert before + CallsInMethods(cs, ci, mi + 1, includeMethodCalls) == es;
      return;
    }
    assert es + CallsOf(cs, ci, mi, 0) == es;
    m := AddCalls(cs, ci, mi, m, es);
    assert before + CallsInMethods(cs, ci, mi + 1, includeMethodCalls)
        == es + CallsOf(cs, ci, mi, |cs[ci].methods[mi].body.value|);
  }

  /**
   * The loop over a plain class's methods: each method is filed by name and, when calls are
   * included and the method has a body, its SqlSession calls by their folded first argument.
   */
  method AddClassMethods(cs: seq<JClass>, ci: nat, includeMethodCalls: bool,
                         byName0: map<String, seq<MethodRef>>, ghost before: seq<(String, MethodRef)>,
                         calls0: map<String, seq<CallRef>>, ghost callsBefore: seq<(String, CallRef)>)
    returns (byName: map<String, seq<MethodRef>>, calls: map<String, seq<CallRef>>)
    requires ci < |cs|
    requires byName0 == Group(before + MethodsOf(cs, ci, 0))
    requires calls0 == Group(callsBefore + CallsInMethods(cs, ci, 0, includeMethodCalls))
    ensures byName == Group(before + MethodsOf(cs, ci, |cs[ci].methods|))
    ensures calls == Group(callsBefore + CallsInMethods(cs, ci, |cs[ci].methods|, includeMethodCalls))
  {
    byName, calls := byName0, calls0;
    for j := 0 to |cs[ci].methods|
      invariant byName == Group(before + MethodsOf(cs, ci, j))
      invariant calls == Group(callsBefore + CallsInMethods(cs, ci, j, includeMethodCalls))
    {
      byName := AddMethod(cs, ci, j, byName, before);
      calls := AddMethodCalls(cs, ci, j, includeMethodCalls, calls, callsBefore);
    }
  }

  /** The loop over a class's fields: String-typed fields whose folded initializer starts with the class name. */
  method AddFields(cs: seq<JClass>, ci: nat, m0: map<String, seq<FieldRef>>)
    returns (m: map<String, seq<FieldRef>>)
    requires ci < |cs|
    requires m0 == Group(FieldEntries(cs, ci))
    ensures m == Group(FieldEntries(cs, ci + 1))
  {
    m := m0;
    ghost var before := FieldEntries(cs, ci);
    assert before + FieldsOf(cs, ci, 0) == before;
    var fields := cs[ci].fields;
    for j := 0 to |fields|
      invariant m == Group(before + FieldsOf(cs, ci, j))
    {
      m := AddField(cs, ci, j, before, m);
    }
  }

  /** One pass of the field loop: a String field whose folded initializer starts with the class name is filed. */
  method AddField(cs: seq<JClass>, ci: nat, j: nat, ghost before: seq<(String, FieldRef)>, m0: map<String, seq<FieldRef>>)
    returns (m: map<String, seq<FieldRef>>)
    requires ci < |cs| && j < |cs[ci].fields|
    requires m0 == Group(before + FieldsOf(cs, ci, j))
    ensures m == Group(before + FieldsOf(cs, ci, j + 1))
  {
    var field := cs[ci].fields[j];
    ghost var es := before + FieldsOf(cs, ci, j);
    var key := InitializerValue(field.initializer);
    FieldsOfStep(cs, ci, j, before);
    if field.typeText == JavaLangString && key.Ok? && key.value.Some? && key.value.value != [] &&
       StartsWith(key.value.value, cs[ci].qualifiedName) {
      assert before + FieldsOf(cs, ci, j + 1) == es + [(key.value.value, FieldRef(ci, j))];
      GroupSnoc(es, (key.value.value, FieldRef(ci, j)));
      m := AddTo(m0, key.value.value, FieldRef(ci, j));
    } else {
      assert before + FieldsOf(cs, ci, j + 1) == es;
      m := m0;
    }
  }

  lemma FieldsOfStep(cs: seq<JClass>, ci: nat, j: nat, before: seq<(String, FieldRef)>)
    requires ci < |cs| && j < |cs[ci].fields|
    ensures var key := FieldKey(cs[ci], cs[ci].fields[j]);
            before + FieldsOf(cs, ci, j + 1) ==
            before + FieldsOf(cs, ci, j) + (if key.Some? then [(key.value, FieldRef(ci, j))] else [])
  {
  }

  /** An interface: `interfaces.put` and the loop over its methods. */
  method ScanInterface(cs: seq<JClass>, i: nat, interfaces0: map<String, nat>, methods0: map<String, seq<MethodRef>>)
    returns (interfaces: map<String, nat>, methods: map<String, seq<MethodRef>>)
    requires i < |cs| && cs[i].isInterface
    requires interfaces0 == LastWins(ClassEntries(cs, i, true))
    requires methods0 == Group(MethodEntries(cs, i, true))
    ensures interfaces == LastWins(ClassEntries(cs, i + 1, true))
    ensures methods == Group(MethodEntries(cs, i + 1, true))
  {
    LastWinsSnoc(ClassEntries(cs, i, true), (cs[i].qualifiedName, i));
    interfaces := interfaces0[cs[i].qualifiedName := i];
    ghost var ms := MethodEntries(cs, i, true);
    assert ms + MethodsOf(cs, i, 0) == ms;
    methods := AddMethods(cs, i, methods0, ms);
  }

  /** A plain class: `classes.put` and the loop over its methods and their calls. */
  method ScanPlainClass(cs: seq<JClass>, i: nat, includeMethodCalls: bool, classes0: map<String, nat>,
                        methods0: map<String, seq<MethodRef>>, calls0: map<String, seq<CallRef>>)
    returns (classes: map<String, nat>, methods: map<String, seq<MethodRef>>, calls: map<String, seq<CallRef>>)
    requires i < |cs| && IsPlainClass(cs[i])
    requires classes0 == LastWins(ClassEntries(cs, i, false))
    requires methods0 == Group(MethodEntries(cs, i, false))
    requires calls0 == Group(CallEntries(cs, i, includeMethodCalls))
    ensures classes == LastWins(ClassEntries(cs, i + 1, false))
    ensures methods == Group(MethodEntries(cs, i + 1, false))
    ensures calls == Group(CallEntries(cs, i + 1, includeMethodCalls))
  {
    LastWinsSnoc(ClassEntries(cs, i, false), (cs[i].qualifiedName, i));
    classes := classes0[cs[i].qualifiedName := i];
    ghost var ms := MethodEntries(cs, i, false);
    ghost var ces := CallEntries(cs, i, includeMethodCalls);
    assert ms + MethodsOf(cs, i, 0) == ms;
    assert ces + CallsInMethods(cs, i, 0, includeMethodCalls) == ces;
    methods, calls := AddClassMethods(cs, i, includeMethodCalls, methods0, ms, calls0, ces);
  }

  /** A class of a kind a map does not keep adds nothing to that map's entries. */
  lemma SkippedClass(cs: seq<JClass>, i: nat, toInterfaces: bool, includeMethodCalls: bool)
    requires i < |cs| && !Kept(cs[i], toInterfaces)
    ensures ClassEntries(cs, i + 1, toInterfaces) == ClassEntries(cs, i, toInterfaces)
    ensures MethodEntries(cs, i + 1, toInterfaces) == MethodEntries(cs, i, toInterfaces)
    ensures !toInterfaces ==> CallEntries(cs, i + 1, includeMethodCalls) == CallEntries(cs, i, includeMethodCalls)
  {
  }

  /** The six maps of a parse result, each holding what the specification of its map describes for the classes `cs`. */
  ghost predicate Scanned(cs: seq<JClass>, includeMethodCalls: bool,
                          classes: map<String, nat>, interfaces: map<String, nat>,
                          classMethods: map<String, seq<MethodRef>>, interfaceMethods: map<String, seq<MethodRef>>,
                          methodCalls: map<String, seq<CallRef>>, stringFields: map<String, seq<FieldRef>>)
  {
    classes == LastWins(ClassEntries(cs, |cs|, false))
    && interfaces == LastWins(ClassEntries(cs, |cs|, true))
    && classMethods == Group(MethodEntries(cs, |cs|, false))
    && interfaceMethods == Group(MethodEntries(cs, |cs|, true))
    && methodCalls == Group(CallEntries(cs, |cs|, includeMethodCalls))
    && stringFields == Group(FieldEntries(cs, |cs|))
  }

  /** The six maps of `initializeMaps` over the classes `cs`, filled class by class. */
  method ScanClasses(cs: seq<JClass>, includeMethodCalls: bool)
    returns (classes: map<String, nat>, interfaces: map<String, nat>,
             classMethods: map<String, seq<MethodRef>>, interfaceMethods: map<String, seq<MethodRef>>,
             methodCalls: map<String, seq<CallRef>>, stringFields: map<String, seq<FieldRef>>)
    ensures Scanned(cs, includeMethodCalls, classes, interfaces, classMethods, interfaceMethods, methodCalls, stringFields)
  {
    classes, interfaces := map[], map[];
    classMethods, interfaceMethods, methodCalls, stringFields := map[], map[], map[], map[];
    for i := 0 to |cs|
      invariant classes == LastWins(ClassEntries(cs, i, false))
      invariant interfaces == LastWins(ClassEntries(cs, i, true))
      invariant classMethods == Group(MethodEntries(cs, i, false))
      invariant interfaceMethods == Group(MethodEntries(cs, i, true))
      invariant methodCalls == Group(CallEntries(cs, i, includeMethodCalls))
      invariant stringFields == Group(FieldEntries(cs, i))
    {
      var c := cs[i];
      if c.isInterface {
        SkippedClass(cs, i, false, includeMethodCalls);
        interfaces, interfaceMethods := ScanInterface(cs, i, interfaces, interfaceMethods);
      } else if !c.isEnum && !c.isAnnotationType {
        SkippedClass(cs, i, true, includeMethodCalls);
        classes, classMethods, methodCalls := ScanPlainClass(cs, i, includeMethodCalls, classes, classMethods, methodCalls);
      } else {
        SkippedClass(cs, i, true, includeMethodCalls);
        SkippedClass(cs, i, false, includeMethodCalls);
      }
      stringFields := AddFields(cs, i, stringFields);
    }
  }

  // ---------------------------------------------------------------- the parse result

  /** `DefaultJavaParseResult`: the file, the method-call flag and the six maps. */
  class ParseResult {
    var file: JavaFile
    var includeMethodCalls: bool
    var classes: map<String, nat>
    var interfaces: map<String, nat>
    var classMethodsByName: map<String, seq<MethodRef>>
    var interfaceMethodsByName: map<String, seq<MethodRef>>
    var classMethodCall: map<String, seq<CallRef>>
    var staticStringField: map<String, seq<FieldRef>>

    /** Every map holds what the file's classes give, in the order `initializeMaps` visits them. */
    ghost predicate Valid()
      reads this
    {
      Scanned(file.classes, includeMethodCalls, classes, interfaces, classMethodsByName, interfaceMethodsByName,
              classMethodCall, staticStringField)
    }

    constructor(file: JavaFile, includeMethodCalls: bool)
      ensures this.file == file && this.includeMethodCalls == includeMethodCalls && Valid()
    {
      this.file := file;
      this.includeMethodCalls := includeMethodCalls;
      classes, interfaces := map[], map[];
      classMethodsByName, interfaceMethodsByName, classMethodCall, staticStringField := map[], map[], map[], map[];
      new;
      InitializeMaps();
    }

    /** `initializeMaps`: one pass over the file's classes fills all six maps. */
    method InitializeMaps()
      modifies this
      ensures file == old(file) && includeMethodCalls == old(includeMethodCalls) && Valid()
    {
      classes, interfaces, classMethodsByName, interfaceMethodsByName, classMethodCall, staticStringField :=
        ScanClasses(file.classes, includeMethodCalls);
    }

    /** `getQualifiedName`: the package, a dot, and the file name with every ".java" removed. */
    function GetQualifiedName(): String
      reads this
    {
      file.packageName + "." + ReplaceAll(file.name, JavaSuffix, [])
    }

    /** `getInterfaceMethodsByName`: the interface methods filed under `k`, empty for an unknown key. */
    function GetInterfaceMethodsByName(k: String): (r: seq<MethodRef>)
      requires Valid()
      reads this
      ensures forall m :: m in r <==> IsMethodFor(file.classes, true, k, m)
    {
      var es := MethodEntries(file.classes, |file.classes|, true);
      GroupIsGrouping(es);
      MethodsFiled(file.classes, true, k);
      if k in interfaceMethodsByName then interfaceMethodsByName[k] else []
    }

    /** `getClassMethodsByName`: the plain-class methods filed under `k`, empty for an unknown key. */
    function GetClassMethodsByName(k: String): (r: seq<MethodRef>)
      requires Valid()
      reads this
      ensures forall m :: m in r <==> IsMethodFor(file.classes, false, k, m)
    {
      var es := MethodEntries(file.classes, |file.classes|, false);
      GroupIsGrouping(es);
      MethodsFiled(file.classes, false, k);
      if k in classMethodsByName then classMethodsByName[k] else []
    }

    /** `getStaticStringFieldByName`: the fields filed under `k`, empty for an unknown key. */
    function GetStaticStringFieldByName(k: String): (r: seq<FieldRef>)
      requires Valid()
      reads this
      ensures forall f :: f in r <==> IsFieldFor(file.classes, k, f)
    {
      var es := FieldEntries(file.classes, |file.classes|);
      GroupIsGrouping(es);
      FieldsFiled(file.classes, k);
      if k in staticStringField then staticStringField[k] else []
    }
  }

  /** The method entries under `k` are exactly the methods `IsMethodFor` names. */
  lemma MethodsFiled(cs: seq<JClass>, toInterfaces: bool, k: String)
    ensures forall m :: (k, m) in MethodEntries(cs, |cs|, toInterfaces) <==> IsMethodFor(cs, toInterfaces, k, m)
  {
    forall m ensures (k, m) in MethodEntries(cs, |cs|, toInterfaces) <==> IsMethodFor(cs, toInterfaces, k, m) {
      MethodEntriesMembers(cs, |cs|, toInterfaces, k, m);
    }
  }

  /** The field entries under `k` are exactly the fields `IsFieldFor` names. */
  lemma FieldsFiled(cs: seq<JClass>, k: String)
    ensures forall f :: (k, f) in FieldEntries(cs, |cs|) <==> IsFieldFor(cs, k, f)
  {
    forall f ensures (k, f) in FieldEntries(cs, |cs|) <==> IsFieldFor(cs, k, f) {
      FieldEntriesMembers(cs, |cs|, k, f);
    }
  }

  /**
   * `parse` (`includeMethodCalls` false) and `parseEverything` (true) as written: both read the
   * virtual file's path before anything else, so a file without one throws; otherwise None
   * (Java's null) for an invalid file and a freshly initialised result for a valid one, unless
   * a fold throws while the maps are filled.
   */
  method Parse(file: JavaFile, includeMethodCalls: bool) returns (r: Result<Option<ParseResult>, CallError>)
    ensures r.Err? <==> file.path.None? || (IsValidJavaFile(file) && ScanThrows(file.classes, includeMethodCalls))
    ensures file.path.None? ==> !IsValidJavaFile(file)
    ensures r.Ok? ==> (r.value.None? <==> !IsValidJavaFile(file))
    ensures r.Ok? && r.value.Some? ==>
      fresh(r.value.value) && r.value.value.file == file && r.value.value.includeMethodCalls == includeMethodCalls
      && r.value.value.Valid()
  {
    if file.path.None? {
      return Err(NullPointer);
    }
    r := ParseChecked(file, includeMethodCalls);
  }

  /**
   * `parse` as its validity check intends: None for every invalid file, a missing virtual
   * file included, and a freshly initialised result for a valid one, unless a fold throws while
   * the maps are filled.
   */
  method ParseChecked(file: JavaFile, includeMethodCalls: bool) returns (r: Result<Option<ParseResult>, CallError>)
    ensures r.Err? <==> IsValidJavaFile(file) && ScanThrows(file.classes, includeMethodCalls)
    ensures r.Ok? ==> (r.value.None? <==> !IsValidJavaFile(file))
    ensures r.Ok? && r.value.Some? ==>
      fresh(r.value.value) && r.value.value.file == file && r.value.value.includeMethodCalls == includeMethodCalls
      && r.value.value.Valid()
  {
    if !IsValidJavaFile(file) {
      return Ok(None);
    }
    if ScanThrows(file.classes, includeMethodCalls) {
      return Err(NullPointer);
    }
    var result := new ParseResult(file, includeMethodCalls);
    return Ok(Some(result));
  }

  // ---------------------------------------------------------------- what the maps hold

  /**
   * Interfaces go only into the interface map and plain classes only into the class map, each
   * under its qualified name, the last class with that name winning.
   */
  lemma ClassMapsSortClasses(p: ParseResult, k: String)
    requires p.Valid()
    ensures k in p.interfaces <==> exists c :: IsClassFor(p.file.classes, true, k, c)
    ensures k in p.interfaces ==> IsClassFor(p.file.classes, true, k, p.interfaces[k])
    ensures k in p.classes <==> exists c :: IsClassFor(p.file.classes, false, k, c)
    ensures k in p.classes ==> IsClassFor(p.file.classes, false, k, p.classes[k])
  {
    ClassMapKeys(p.file.classes, true, k);
    ClassMapKeys(p.file.classes, false, k);
  }

  /** The `put` loop over the classes of one kind: a key for each name, holding the last class with it. */
  lemma ClassMapKeys(cs: seq<JClass>, toInterfaces: bool, k: String)
    ensures var m := LastWins(ClassEntries(cs, |cs|, toInterfaces));
      (k in m <==> exists c :: IsClassFor(cs, toInterfaces, k, c)) && (k in m ==> IsClassFor(cs, toInterfaces, k, m[k]))
  {
    var es := ClassEntries(cs, |cs|, toInterfaces);
    var m := LastWins(es);
    if k in m {
      var j :| LastFor(es, k, j) && es[j].1 == m[k];
      assert es[j] == (k, m[k]);
      ClassEntriesMembers(cs, |cs|, toInterfaces, k, m[k]);
    }
    if c :| IsClassFor(cs, toInterfaces, k, c) {
      ClassEntriesMembers(cs, |cs|, toInterfaces, k, c);
    }
  }

  /** An enum or annotation type that is not an interface is in no class map and none of its methods in a method map. */
  lemma EnumsAndAnnotationsSkipped(p: ParseResult, c: nat)
    requires p.Valid() && c < |p.file.classes|
    requires !p.file.classes[c].isInterface && (p.file.classes[c].isEnum || p.file.classes[c].isAnnotationType)
    ensures forall k :: k in p.classes ==> p.classes[k] != c
    ensures forall k :: k in p.interfaces ==> p.interfaces[k] != c
    ensures forall k, j :: MethodRef(c, j) !in p.GetClassMethodsByName(k) && MethodRef(c, j) !in p.GetInterfaceMethodsByName(k)
  {
    forall k | k in p.classes ensures p.classes[k] != c {
      ClassMapsSortClasses(p, k);
    }
    forall k | k in p.interfaces ensures p.interfaces[k] != c {
      ClassMapsSortClasses(p, k);
    }
  }

  /** Overloads of a method share one list: every method with the same name is filed under the same key. */
  lemma OverloadsShareKey(p: ParseResult, c: nat, j1: nat, j2: nat)
    requires p.Valid() && c < |p.file.classes| && IsPlainClass(p.file.classes[c])
    requires j1 < |p.file.classes[c].methods| && j2 < |p.file.classes[c].methods|
    requires p.file.classes[c].methods[j1].name == p.file.classes[c].methods[j2].name
    ensures var k := MethodKey(p.file.classes[c], p.file.classes[c].methods[j1]);
      MethodRef(c, j1) in p.GetClassMethodsByName(k) && MethodRef(c, j2) in p.GetClassMethodsByName(k)
  {
    var k := MethodKey(p.file.classes[c], p.file.classes[c].methods[j1]);
    assert IsMethodFor(p.file.classes, false, k, MethodRef(c, j1));
    assert IsMethodFor(p.file.classes, false, k, MethodRef(c, j2));
  }

  /**
   * A call is in the method-call map under `k` exactly when calls were included, it sits in the
   * body of a method of a plain class, resolves to a SqlSession method, has an argument, and its
   * first argument folds to the non-empty `k`.
   */
  lemma MethodCallEntries(p: ParseResult, k: String, r: CallRef)
    requires p.Valid()
    ensures (k in p.classMethodCall && r in p.classMethodCall[k]) <==> IsCallFor(p.file.classes, p.includeMethodCalls, k, r)
  {
    var cs := p.file.classes;
    var es := CallEntries(cs, |cs|, p.includeMethodCalls);
    GroupIsGrouping(es);
    CallEntriesMembers(cs, |cs|, p.includeMethodCalls, k, r);
  }

  /** `parse` leaves the method-call map empty. */
  lemma NoCallsWithoutFlag(p: ParseResult)
    requires p.Valid() && !p.includeMethodCalls
    ensures p.classMethodCall == map[]
  {
    var cs := p.file.classes;
    var es := CallEntries(cs, |cs|, false);
    GroupIsGrouping(es);
    forall k | k in p.classMethodCall ensures false {
      var r :| (k, r) in es;
      CallEntriesMembers(cs, |cs|, false, k, r);
    }
  }

  /** Every static-string-field key is non-empty and starts with the qualified name of the field's class. */
  lemma StringFieldKeys(p: ParseResult, k: String, f: FieldRef)
    requires p.Valid() && f in p.GetStaticStringFieldByName(k)
    ensures f.cls < |p.file.classes| && f.field < |p.file.classes[f.cls].fields|
    ensures p.file.classes[f.cls].fields[f.field].typeText == JavaLangString
    ensures k != [] && StartsWith(k, p.file.classes[f.cls].qualifiedName)
  {
  }

  /** For a valid file whose public class is `C`, the qualified name is the package, a dot, and `C`. */
  lemma QualifiedNameOfPublicClass(p: ParseResult, c: nat)
    requires IsValidJavaFile(p.file) && c < |p.file.classes| && p.file.classes[c].isPublic
    requires '.' !in p.file.classes[c].name
    ensures p.GetQualifiedName() == p.file.packageName + "." + p.file.classes[c].name
  {
    var n := p.file.classes[c].name;
    assert p.file.name == n + JavaSuffix;
    ReplaceAllSkipsPrefix(n, JavaSuffix, JavaSuffix, []);
    assert JavaSuffix == JavaSuffix + [];
    ReplaceAllLeading([], JavaSuffix, []);
    ReplaceAllShort([], JavaSuffix, []);
    assert n + [] == n;
  }
}
