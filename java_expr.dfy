/**
 * `JavaService.parseExpression` in its two versions: the constant folding of a Java
 * expression that names an SQL statement, with the syntax tree given as a datatype in
 * place of PSI. A folded value of None stands for a `null` string; `Err(NullPointer)` is
 * the NullPointerException the fold throws when a null part reaches its `ArrayDeque`.
 */
module JavaExpr {
  import opened Wrappers
  import opened JavaText

  /** The value of a literal: a string, some other constant (printed as `text`), or `null`. */
  datatype Literal = StringLit(s: String) | OtherLit(text: String) | NullLit

  /**
   * The qualifier of a zero-argument call. `ClassLiteral(Some(q))` is `X.class` whose
   * type resolves to a class with qualified name `q` (itself possibly null);
   * `ClassLiteral(None)` is a class literal whose type does not resolve.
   */
  datatype Qualifier = ClassLiteral(resolved: Option<Option<String>>) | OtherQualifier

  /** What a reference resolves to. */
  datatype Target =
    | Field(initializer: Option<Expr>)
    | Local(name: String, initializer: Option<Expr>, declaredString: bool)
    | OtherTarget

  /** The expression kinds `parseExpression` tells apart; `Paren` is a parenthesised expression, which it does not. */
  datatype Expr =
    | Lit(lit: Literal)
    | Binary(left: Expr, right: Expr)
    | Polyadic(operands: seq<Expr>)
    | Ref(target: Target)
    | Call(methodName: Option<String>, qualifier: Qualifier, args: seq<Expr>)
    | Paren(inner: Expr)
    | Other

  /**
   * The two versions differ in one branch: the newer one also follows a reference passed as
   * the first argument of a call (`refArgument`), the older one does not.
   */
  datatype Version = Jetbrains | Intellij
  {
    predicate FollowsRefArgument() { this == Jetbrains }
  }

  datatype CallError = NullPointer

  /** What `parseExpression` yields: a string (None for `null`), or the exception it throws. */
  type Outcome = Result<Option<String>, CallError>

  /** The outcomes of a polyadic expression's operands, none of which throws. */
  predicate NoneThrows(rs: seq<Outcome>)
  {
    forall k :: 0 <= k < |rs| ==> rs[k].Ok?
  }

  function FoldedValues(rs: seq<Outcome>): seq<Option<String>>
    requires NoneThrows(rs)
  {
    seq(|rs|, k requires 0 <= k < |rs| => rs[k].value)
  }

  /** `parseExpression` */
  function Eval(e: Expr, v: Version): Outcome
    decreases e, 1
  {
    match e
    case Lit(lit) =>
      (match lit
       case StringLit(s) => Ok(Some(s))
       case OtherLit(t) => Ok(Some(t))
       case NullLit => Ok(Some("null")))
    case Binary(_, _) =>
      var parts := Flatten(e, [], v);
      if parts.Err? then Err(parts.error) else Ok(Some(JoinStrings(parts.value)))
    case Call(name, q, args) =>
      if |args| != 0 then
        match args[0]
        case Lit(StringLit(s)) => Ok(Some(s))
        case Lit(_) => Ok(None)
        case Binary(_, _) => Eval(args[0], v)
        case Ref(_) => if v.FollowsRefArgument() then Eval(args[0], v) else Ok(Some(""))
        case _ => Ok(Some(""))
      else if name == Some("getName") && q.ClassLiteral? && q.resolved.Some? then Ok(q.resolved.value)
      else Ok(Some(""))
    case Ref(Field(init)) => if init.Some? then Eval(init.value, v) else Ok(Some(""))
    case Ref(Local(name, init, declaredString)) =>
      if init.Some? then Eval(init.value, v) else if declaredString then Ok(Some(name)) else Ok(Some(""))
    case Ref(OtherTarget) => Ok(Some(""))
    case Polyadic(ops) =>
      var rs := seq(|ops|, i requires 0 <= i < |ops| => Eval(ops[i], v));
      if NoneThrows(rs) then Ok(Some(Concat(FoldedValues(rs)))) else Err(NullPointer)
    case Paren(_) => Ok(Some(""))
    case Other => Ok(Some(""))
  }

  /**
   * What the deque receives from a non-binary operand: its folded string, or the exception
   * thrown either while folding it or by `addFirst`/`addLast`, which refuse `null`.
   */
  function Part(o: Outcome): (r: Result<String, CallError>)
    ensures r.Err? <==> o.Err? || o.value.None?
    ensures r.Ok? ==> o == Ok(Some(r.value))
  {
    if o.Err? then Err(o.error) else if o.value.None? then Err(NullPointer) else Ok(o.value.value)
  }

  /**
   * The deque `flattenBinaryExpression` leaves behind when it starts from `parts`: a
   * non-binary left operand goes to the front, a non-binary right operand to the back, and
   * the first part that cannot be added ends the walk with its exception.
   */
  function Flatten(b: Expr, parts: seq<String>, v: Version): Result<seq<String>, CallError>
    requires b.Binary?
    decreases b, 0
  {
    var afterLeft :=
      if b.left.Binary? then Flatten(b.left, parts, v)
      else
        var p := Part(Eval(b.left, v));
        if p.Err? then Err(p.error) else Ok([p.value] + parts);
    if afterLeft.Err? then afterLeft
    else if b.right.Binary? then Flatten(b.right, afterLeft.value, v)
    else
      var p := Part(Eval(b.right, v));
      if p.Err? then Err(p.error) else Ok(afterLeft.value + [p.value])
  }

  /** `String.join("", parts)` over a deque that holds no null. */
  function JoinStrings(parts: seq<String>): String
  {
    if parts == [] then [] else parts[0] + JoinStrings(parts[1..])
  }

  lemma {:induction false} JoinStringsAppend(a: seq<String>, b: seq<String>)
    ensures JoinStrings(a + b) == JoinStrings(a) + JoinStrings(b)
    decreases |a|
  {
    if a == [] {
      assert a + b == b;
    } else {
      assert (a + b)[1..] == a[1..] + b;
      JoinStringsAppend(a[1..], b);
    }
  }

  // ---------------------------------------------------------------- the deque

  /** The `ArrayDeque<String>` that collects the parts; it never holds `null`. */
  class Deque {
    var items: seq<String>

    constructor()
      ensures items == []
    {
      items := [];
    }

    /** `addFirst`: a null element is refused with a NullPointerException and the deque is left alone. */
    method AddFirst(x: Option<String>) returns (r: Result<(), CallError>)
      modifies this
      ensures r.Err? <==> x.None?
      ensures items == if x.Some? then [x.value] + old(items) else old(items)
    {
      if x.None? {
        return Err(NullPointer);
      }
      items := [x.value] + items;
      r := Ok(());
    }

    /** `addLast`: a null element is refused with a NullPointerException and the deque is left alone. */
    method AddLast(x: Option<String>) returns (r: Result<(), CallError>)
      modifies this
      ensures r.Err? <==> x.None?
      ensures items == if x.Some? then old(items) + [x.value] else old(items)
    {
      if x.None? {
        return Err(NullPointer);
      }
      items := items + [x.value];
      r := Ok(());
    }
  }

  /**
   * `flattenBinaryExpression(exp, parts)`, working on the deque in place; an Err result is
   * the exception that leaves it part-way.
   */
  method FlattenBinaryExpression(b: Expr, parts: Deque, v: Version) returns (r: Result<(), CallError>)
    requires b.Binary?
    modifies parts
    ensures r.Ok? <==> Flatten(b, old(parts.items), v).Ok?
    ensures r.Ok? ==> parts.items == Flatten(b, old(parts.items), v).value
    decreases b
  {
    if b.left.Binary? {
      r := FlattenBinaryExpression(b.left, parts, v);
      if r.Err? {
        return;
      }
    } else {
      var x := Eval(b.left, v);
      if x.Err? {
        return Err(x.error);
      }
      r := parts.AddFirst(x.value);
      if r.Err? {
        return;
      }
    }
    if b.right.Binary? {
      r := FlattenBinaryExpression(b.right, parts, v);
    } else {
      var x := Eval(b.right, v);
      if x.Err? {
        return Err(x.error);
      }
      r := parts.AddLast(x.value);
    }
  }

  /** The binary branch of `parseExpression`: flatten into a fresh deque and join. */
  method ParseBinary(b: Expr, v: Version) returns (r: Outcome)
    requires b.Binary?
    ensures r == Eval(b, v)
    ensures r == if AllOk(Front(b, v)) && AllOk(Back(b, v))
                 then Ok(Some(JoinStrings(Values(Front(b, v)) + Values(Back(b, v)))))
                 else Err(NullPointer)
  {
    var parts := new Deque();
    var flat := FlattenBinaryExpression(b, parts, v);
    EvalBinaryParts(b, v);
    if flat.Err? {
      return Err(NullPointer);
    }
    r := Ok(Some(JoinStrings(parts.items)));
  }

  // ---------------------------------------------------------------- where the parts end up

  /** The attempted parts: each the string added, or the exception raised instead. */
  type Attempts = seq<Result<String, CallError>>

  predicate AllOk(s: Attempts)
  {
    forall k :: 0 <= k < |s| ==> s[k].Ok?
  }

  function Values(s: Attempts): seq<String>
    requires AllOk(s)
  {
    seq(|s|, k requires 0 <= k < |s| => s[k].value)
  }

  lemma OkAppend(a: Attempts, b: Attempts)
    ensures AllOk(a + b) <==> AllOk(a) && AllOk(b)
    ensures AllOk(a) && AllOk(b) ==> Values(a + b) == Values(a) + Values(b)
  {
    if !AllOk(a) {
      var k :| 0 <= k < |a| && a[k].Err?;
      assert (a + b)[k] == a[k];
    }
    if !AllOk(b) {
      var k :| 0 <= k < |b| && b[k].Err?;
      assert (a + b)[|a| + k] == b[k];
    }
  }

  lemma OkSingle(x: Result<String, CallError>)
    ensures AllOk([x]) <==> x.Ok?
    ensures x.Ok? ==> Values([x]) == [x.value]
  {
    assert [x][0] == x;
  }

  /** The parts the left operand puts before whatever the deque already held. */
  function LeftFront(b: Expr, v: Version): Attempts
    requires b.Binary?
    decreases b, 0
  {
    if b.left.Binary? then Front(b.left, v) else [Part(Eval(b.left, v))]
  }

  /** The parts the left operand puts after whatever the deque already held. */
  function LeftBack(b: Expr, v: Version): Attempts
    requires b.Binary?
    decreases b, 0
  {
    if b.left.Binary? then Back(b.left, v) else []
  }

  /** The parts flattening puts before whatever the deque already held. */
  function Front(b: Expr, v: Version): Attempts
    requires b.Binary?
    decreases b, 1
  {
    if b.right.Binary? then Front(b.right, v) + LeftFront(b, v) else LeftFront(b, v)
  }

  /** The parts flattening puts after whatever the deque already held. */
  function Back(b: Expr, v: Version): Attempts
    requires b.Binary?
    decreases b, 1
  {
    if b.right.Binary? then LeftBack(b, v) + Back(b.right, v) else LeftBack(b, v) + [Part(Eval(b.right, v))]
  }

  /**
   * Flattening wraps the existing deque: some parts in front of it, the rest behind it; and it
   * throws exactly when one of those parts is refused.
   */
  lemma {:induction false} FlattenShape(b: Expr, parts: seq<String>, v: Version)
    requires b.Binary?
    ensures Flatten(b, parts, v).Ok? <==> AllOk(Front(b, v)) && AllOk(Back(b, v))
    ensures Flatten(b, parts, v).Ok? ==> Flatten(b, parts, v).value == Values(Front(b, v)) + parts + Values(Back(b, v))
    decreases b, 1
  {
    var afterLeft :=
      if b.left.Binary? then Flatten(b.left, parts, v)
      else
        var p := Part(Eval(b.left, v));
        if p.Err? then Err(p.error) else Ok([p.value] + parts);
    LeftShape(b, parts, v);
    var lf, lb := LeftFront(b, v), LeftBack(b, v);
    if b.right.Binary? {
      var fr, br := Front(b.right, v), Back(b.right, v);
      OkAppend(fr, lf);
      OkAppend(lb, br);
      if afterLeft.Ok? {
        FlattenShape(b.right, afterLeft.value, v);
        if AllOk(fr) && AllOk(br) {
          Regroup(Values(fr), Values(lf), parts, Values(lb), Values(br));
        }
      }
    } else {
      var x := Part(Eval(b.right, v));
      var p := [x];
      assert Front(b, v) == lf && Back(b, v) == lb + p;
      OkSingle(x);
      OkAppend(lb, p);
      if afterLeft.Ok? && x.Ok? {
        assert Flatten(b, parts, v) == Ok(afterLeft.value + [x.value]);
        assert Values(p) == [x.value];
        assert Values(lf) + parts + Values(lb) + Values(p) == Values(lf) + parts + (Values(lb) + Values(p));
      } else {
        assert Flatten(b, parts, v).Err?;
      }
    }
  }

  /** The deque after the left operand is handled. */
  lemma {:induction false} LeftShape(b: Expr, parts: seq<String>, v: Version)
    requires b.Binary?
    ensures var afterLeft :=
              if b.left.Binary? then Flatten(b.left, parts, v)
              else
                var p := Part(Eval(b.left, v));
                if p.Err? then Err(p.error) else Ok([p.value] + parts);
            (afterLeft.Ok? <==> AllOk(LeftFront(b, v)) && AllOk(LeftBack(b, v))) &&
            (afterLeft.Ok? ==> afterLeft.value == Values(LeftFront(b, v)) + parts + Values(LeftBack(b, v)))
    decreases b, 0
  {
    if b.left.Binary? {
      FlattenShape(b.left, parts, v);
    } else {
      var x := Part(Eval(b.left, v));
      assert LeftFront(b, v) == [x] && LeftBack(b, v) == [];
      OkSingle(x);
      if x.Ok? {
        assert Values(LeftBack(b, v)) == [];
      }
    }
  }

  lemma Regroup<T>(a: seq<T>, b: seq<T>, c: seq<T>, d: seq<T>, e: seq<T>)
    ensures a + (b + c + d) + e == (a + b) + c + (d + e)
  {
  }

  /** A binary expression throws exactly when one of its deque parts is refused, and otherwise joins them. */
  lemma EvalBinaryParts(b: Expr, v: Version)
    requires b.Binary?
    ensures Eval(b, v) == if AllOk(Front(b, v)) && AllOk(Back(b, v))
                          then Ok(Some(JoinStrings(Values(Front(b, v)) + Values(Back(b, v)))))
                          else Err(NullPointer)
  {
    FlattenShape(b, [], v);
    var parts := Flatten(b, [], v);
    assert Eval(b, v) == if parts.Err? then Err(parts.error) else Ok(Some(JoinStrings(parts.value)));
    if AllOk(Front(b, v)) && AllOk(Back(b, v)) {
      assert Values(Front(b, v)) + [] + Values(Back(b, v)) == Values(Front(b, v)) + Values(Back(b, v));
    } else {
      assert parts.error == NullPointer;
    }
  }

  /** A binary tree whose right operands are never binary, as `a + b + c` parses. */
  predicate LeftSpine(b: Expr)
  {
    b.Binary? && !b.right.Binary? && (b.left.Binary? ==> LeftSpine(b.left))
  }

  /** The attempted parts of a binary tree's operands in source order. */
  function InOrder(b: Expr, v: Version): Attempts
    requires b.Binary?
    decreases b, 1
  {
    LeftInOrder(b, v) + RightInOrder(b, v)
  }

  function LeftInOrder(b: Expr, v: Version): Attempts
    requires b.Binary?
    decreases b, 0
  {
    if b.left.Binary? then InOrder(b.left, v) else [Part(Eval(b.left, v))]
  }

  function RightInOrder(b: Expr, v: Version): Attempts
    requires b.Binary?
    decreases b, 0
  {
    if b.right.Binary? then InOrder(b.right, v) else [Part(Eval(b.right, v))]
  }

  /** Whatever the nesting, the deque's parts are the operands' parts, only in another order. */
  lemma {:induction false} FrontBackPermutesOperands(b: Expr, v: Version)
    requires b.Binary?
    ensures multiset(Front(b, v) + Back(b, v)) == multiset(InOrder(b, v))
    decreases b
  {
    FrontBackSplit(b, v);
    MultisetAppend(LeftInOrder(b, v), RightInOrder(b, v));
    if b.left.Binary? {
      FrontBackPermutesOperands(b.left, v);
    } else {
      assert LeftFront(b, v) + LeftBack(b, v) == LeftInOrder(b, v);
    }
    if b.right.Binary? {
      FrontBackPermutesOperands(b.right, v);
    }
  }

  /** The deque's parts are the left operand's parts and the right operand's, in some order. */
  lemma FrontBackSplit(b: Expr, v: Version)
    requires b.Binary?
    ensures b.right.Binary? ==>
              multiset(Front(b, v) + Back(b, v)) ==
              multiset(LeftFront(b, v) + LeftBack(b, v)) + multiset(Front(b.right, v) + Back(b.right, v))
    ensures !b.right.Binary? ==>
              multiset(Front(b, v) + Back(b, v)) ==
              multiset(LeftFront(b, v) + LeftBack(b, v)) + multiset(RightInOrder(b, v))
  {
    var lf, lb := LeftFront(b, v), LeftBack(b, v);
    if b.right.Binary? {
      var fr, br := Front(b.right, v), Back(b.right, v);
      assert Front(b, v) + Back(b, v) == fr + lf + (lb + br);
      MultisetShuffle(fr, lf, lb, br);
      MultisetAppend(fr, br);
    } else {
      var ir := RightInOrder(b, v);
      assert Front(b, v) + Back(b, v) == lf + (lb + ir);
      assert lf + (lb + ir) == (lf + lb) + ir;
      MultisetAppend(lf + lb, ir);
    }
  }

  lemma MultisetAppend<T>(a: seq<T>, b: seq<T>)
    ensures multiset(a + b) == multiset(a) + multiset(b)
  {
  }

  lemma MultisetShuffle<T>(a: seq<T>, b: seq<T>, c: seq<T>, d: seq<T>)
    ensures multiset(a + b + (c + d)) == multiset(b + c) + multiset(a + d)
  {
    assert a + b + (c + d) == a + (b + c) + d;
  }

  lemma SameElementsAllOk(a: Attempts, b: Attempts)
    requires multiset(a) == multiset(b)
    ensures AllOk(a) <==> AllOk(b)
  {
    if !AllOk(a) {
      var k :| 0 <= k < |a| && a[k].Err?;
      assert a[k] in multiset(b);
    }
    if !AllOk(b) {
      var k :| 0 <= k < |b| && b[k].Err?;
      assert b[k] in multiset(a);
    }
  }

  /**
   * A binary expression throws a NullPointerException exactly when one of its operands, in any
   * position, throws or folds to null; otherwise its value is never null.
   */
  lemma BinaryThrowsIffOperandRefused(b: Expr, v: Version)
    requires b.Binary?
    ensures Eval(b, v).Err? <==> exists k :: 0 <= k < |InOrder(b, v)| && InOrder(b, v)[k].Err?
    ensures Eval(b, v).Ok? ==> Eval(b, v).value.Some?
  {
    EvalBinaryParts(b, v);
    FrontBackPermutesOperands(b, v);
    SameElementsAllOk(Front(b, v) + Back(b, v), InOrder(b, v));
    OkAppend(Front(b, v), Back(b, v));
  }

  /** `"ns." + f(1)`: the call folds to null, so `addLast(null)` throws. */
  lemma NullOperandThrows(v: Version)
    ensures Eval(Binary(Lit(StringLit("ns.")), Call(None, OtherQualifier, [Lit(OtherLit("1"))])), v) == Err(NullPointer)
  {
    var call := Call(None, OtherQualifier, [Lit(OtherLit("1"))]);
    assert Eval(call, v) == Ok(None);
  }

  /** For left-nested concatenations the deque holds the operands in source order. */
  lemma LeftSpineInOrder(b: Expr, v: Version)
    requires LeftSpine(b)
    ensures Front(b, v) + Back(b, v) == InOrder(b, v)
    ensures Eval(b, v) == if AllOk(InOrder(b, v)) then Ok(Some(JoinStrings(Values(InOrder(b, v))))) else Err(NullPointer)
  {
    LeftSpineParts(b, v);
    EvalBinaryParts(b, v);
    OkAppend(Front(b, v), Back(b, v));
  }

  lemma {:induction false} LeftSpineParts(b: Expr, v: Version)
    requires LeftSpine(b)
    ensures Front(b, v) + Back(b, v) == InOrder(b, v)
    decreases b
  {
    var fl, bl, r := LeftFront(b, v), LeftBack(b, v), [Part(Eval(b.right, v))];
    assert Front(b, v) == fl && Back(b, v) == bl + r;
    if b.left.Binary? {
      LeftSpineParts(b.left, v);
      assert fl + (bl + r) == (fl + bl) + r;
    }
  }

  /** A right operand that is itself binary puts its left operand in front of everything before it. */
  lemma RightNestedOrder(a: Expr, b: Expr, c: Expr, v: Version)
    requires !a.Binary? && !b.Binary? && !c.Binary?
    ensures var pa, pb, pc := Part(Eval(a, v)), Part(Eval(b, v)), Part(Eval(c, v));
            Eval(Binary(a, Binary(b, c)), v) ==
              if pa.Ok? && pb.Ok? && pc.Ok? then Ok(Some(pb.value + pa.value + pc.value)) else Err(NullPointer)
  {
    var pa, pb, pc := Part(Eval(a, v)), Part(Eval(b, v)), Part(Eval(c, v));
    var e := Binary(a, Binary(b, c));
    var flat := Flatten(e, [], v);
    assert Eval(e, v) == if flat.Err? then Err(flat.error) else Ok(Some(JoinStrings(flat.value)));
    if pa.Err? {
      assert flat.Err? && flat.error == NullPointer;
    } else {
      assert [pa.value] + [] == [pa.value];
      assert flat == Flatten(Binary(b, c), [pa.value], v);
      if pb.Ok? && pc.Ok? {
        assert [pb.value] + [pa.value] + [pc.value] == [pb.value, pa.value, pc.value];
        assert flat == Ok([pb.value, pa.value, pc.value]);
        JoinThree(pb.value, pa.value, pc.value);
      } else {
        assert flat.Err? && flat.error == NullPointer;
      }
    }
  }

  lemma JoinThree(x: String, y: String, z: String)
    ensures JoinStrings([x, y, z]) == x + y + z
  {
    assert [x, y, z][1..] == [y, z];
    assert [y, z][1..] == [z];
    assert [z][1..] == [];
    assert JoinStrings([z]) == z + [] == z;
    assert JoinStrings([y, z]) == y + z;
  }

  /** "a" + ("." + "b") folds to ".ab" when the inner sum is a bare binary operand. */
  lemma RightNestedExample(v: Version)
    ensures Eval(Binary(Lit(StringLit("a")), Binary(Lit(StringLit(".")), Lit(StringLit("b")))), v) == Ok(Some(".ab"))
  {
    RightNestedOrder(Lit(StringLit("a")), Lit(StringLit(".")), Lit(StringLit("b")), v);
    assert "." + "a" + "b" == ".ab";
  }

  // ---------------------------------------------------------------- parentheses

  /**
   * The documented example of `flattenBinaryExpression`, `"namespace" + ("." + "selectUser")`: the
   * parenthesised operand is not a binary expression, nor any other kind `parseExpression`
   * handles, so it folds to "" and the sum keeps only "namespace".
   */
  lemma ParenthesisedOperandDropped(v: Version)
    ensures Eval(Binary(Lit(StringLit("namespace")), Paren(Binary(Lit(StringLit(".")), Lit(StringLit("selectUser"))))), v) ==
            Ok(Some("namespace"))
  {
    var e := Binary(Lit(StringLit("namespace")), Paren(Binary(Lit(StringLit(".")), Lit(StringLit("selectUser")))));
    assert Part(Eval(e.left, v)) == Ok("namespace");
    assert Part(Eval(e.right, v)) == Ok("");
    assert Flatten(e, [], v) == Ok(["namespace"] + [] + [""]);
    assert ["namespace"] + [] + [""] == ["namespace", ""];
    assert ["namespace", ""][1..] == [""];
    assert [""][1..] == [];
    assert JoinStrings([""]) == "" + JoinStrings([]) == "";
    assert JoinStrings(["namespace", ""]) == "namespace" + "" == "namespace";
    assert Eval(e, v) == Ok(Some(JoinStrings(["namespace", ""])));
  }

  /** The operands of a sum in source order, with parentheses and nested sums opened up. */
  function Operands(e: Expr): seq<Expr>
  {
    match e
    case Binary(l, r) => Operands(l) + Operands(r)
    case Paren(x) => Operands(x)
    case _ => [e]
  }

  function OperandParts(ops: seq<Expr>, v: Version): Attempts
  {
    seq(|ops|, k requires 0 <= k < |ops| => Part(Eval(ops[k], v)))
  }

  /**
   * The fold the comment of `flattenBinaryExpression` describes: every operand, parenthesised
   * or not, joined in source order, and the null-part exception kept.
   */
  function EvalInOrder(b: Expr, v: Version): (r: Outcome)
    requires b.Binary?
    ensures r.Ok? ==> r.value.Some?
  {
    var parts := OperandParts(Operands(b), v);
    if AllOk(parts) then Ok(Some(JoinStrings(Values(parts)))) else Err(NullPointer)
  }

  lemma OperandPartsAppend(a: seq<Expr>, b: seq<Expr>, v: Version)
    ensures OperandParts(a + b, v) == OperandParts(a, v) + OperandParts(b, v)
  {
  }

  /** The corrected fold does not depend on how the sum is grouped. */
  lemma EvalInOrderRegroups(a: Expr, b: Expr, c: Expr, v: Version)
    ensures EvalInOrder(Binary(a, Paren(Binary(b, c))), v) == EvalInOrder(Binary(Binary(a, b), c), v)
  {
    var oa, ob, oc := Operands(a), Operands(b), Operands(c);
    assert Operands(Paren(Binary(b, c))) == Operands(Binary(b, c)) == ob + oc;
    assert Operands(Binary(a, Paren(Binary(b, c)))) == oa + (ob + oc);
    assert Operands(Binary(Binary(a, b), c)) == (oa + ob) + oc;
    assert oa + (ob + oc) == (oa + ob) + oc;
  }

  /** The documented example folds to "namespace.selectUser" under the correction. */
  lemma EvalInOrderExample(v: Version)
    ensures EvalInOrder(Binary(Lit(StringLit("namespace")), Paren(Binary(Lit(StringLit(".")), Lit(StringLit("selectUser"))))), v) ==
            Ok(Some("namespace.selectUser"))
  {
    var ops := ExampleOperands();
    var parts := OperandParts(ops, v);
    ExampleParts(ops, v);
    assert AllOk(parts);
    assert Values(parts) == ["namespace", ".", "selectUser"];
    JoinThree("namespace", ".", "selectUser");
    assert "namespace" + "." + "selectUser" == "namespace.selectUser";
  }

  /** The operands of the documented example, parentheses opened. */
  lemma ExampleOperands() returns (ops: seq<Expr>)
    ensures ops == [Lit(StringLit("namespace")), Lit(StringLit(".")), Lit(StringLit("selectUser"))]
    ensures Operands(Binary(Lit(StringLit("namespace")), Paren(Binary(Lit(StringLit(".")), Lit(StringLit("selectUser")))))) == ops
  {
    ops := [Lit(StringLit("namespace")), Lit(StringLit(".")), Lit(StringLit("selectUser"))];
    var inner := Binary(Lit(StringLit(".")), Lit(StringLit("selectUser")));
    assert Operands(inner) == [ops[1]] + [ops[2]];
    assert Operands(Paren(inner)) == Operands(inner);
    assert Operands(Binary(ops[0], Paren(inner))) == [ops[0]] + ([ops[1]] + [ops[2]]);
  }

  /** Each operand of the documented example is a string literal, so its part is its text. */
  lemma ExampleParts(ops: seq<Expr>, v: Version)
    requires ops == [Lit(StringLit("namespace")), Lit(StringLit(".")), Lit(StringLit("selectUser"))]
    ensures OperandParts(ops, v) == [Ok("namespace"), Ok("."), Ok("selectUser")]
  {
    assert Part(Eval(ops[0], v)) == Ok("namespace");
    assert Part(Eval(ops[1], v)) == Ok(".");
    assert Part(Eval(ops[2], v)) == Ok("selectUser");
  }


  /** No operand anywhere in the sum is parenthesised. */
  predicate NoParen(e: Expr)
  {
    match e
    case Binary(l, r) => NoParen(l) && NoParen(r)
    case Paren(_) => false
    case _ => true
  }

  /** Without parentheses the code's operands, in source order, are the corrected fold's. */
  lemma {:induction false} InOrderOperands(b: Expr, v: Version)
    requires b.Binary? && NoParen(b)
    ensures InOrder(b, v) == OperandParts(Operands(b), v)
    decreases b
  {
    if b.left.Binary? {
      InOrderOperands(b.left, v);
    } else {
      assert Operands(b.left) == [b.left];
    }
    if b.right.Binary? {
      InOrderOperands(b.right, v);
    } else {
      assert Operands(b.right) == [b.right];
    }
    OperandPartsAppend(Operands(b.left), Operands(b.right), v);
  }

  /** On a left-nested sum without parentheses the correction agrees with the code. */
  lemma EvalInOrderAgrees(b: Expr, v: Version)
    requires LeftSpine(b) && NoParen(b)
    ensures EvalInOrder(b, v) == Eval(b, v)
  {
    LeftSpineInOrder(b, v);
    InOrderOperands(b, v);
  }


  // ---------------------------------------------------------------- the other branches

  /** The operands' outcomes, split in two: none throws exactly when neither part throws, and the values split alike. */
  lemma OutcomesSplit(all: seq<Outcome>, pre: seq<Outcome>, post: seq<Outcome>)
    requires all == pre + post
    ensures NoneThrows(all) <==> NoneThrows(pre) && NoneThrows(post)
    ensures NoneThrows(all) ==> FoldedValues(all) == FoldedValues(pre) + FoldedValues(post)
  {
    if NoneThrows(pre) && NoneThrows(post) {
      forall k | 0 <= k < |all| ensures all[k].Ok? {
        if k < |pre| { assert all[k] == pre[k]; } else { assert all[k] == post[k - |pre|]; }
      }
    }
    if NoneThrows(all) {
      forall k | 0 <= k < |pre| ensures pre[k].Ok? {
        assert pre[k] == all[k];
      }
      forall k | 0 <= k < |post| ensures post[k].Ok? {
        assert post[k] == all[|pre| + k];
      }
    }
  }

  /**
   * A polyadic expression throws exactly when one of its operands throws; otherwise it folds to
   * the concatenation of its operands' values, null operands printed as "null", split at any point.
   */
  lemma PolyadicConcat(ops: seq<Expr>, i: nat, v: Version)
    requires i <= |ops|
    ensures Eval(Polyadic(ops), v).Err? <==> exists k :: 0 <= k < |ops| && Eval(ops[k], v).Err?
    ensures var pre := seq(i, k requires 0 <= k < i => Eval(ops[k], v));
            var post := seq(|ops| - i, k requires 0 <= k < |ops| - i => Eval(ops[i + k], v));
            NoneThrows(pre) && NoneThrows(post) ==>
              Eval(Polyadic(ops), v) == Ok(Some(Concat(FoldedValues(pre)) + Concat(FoldedValues(post))))
  {
    var all := seq(|ops|, k requires 0 <= k < |ops| => Eval(ops[k], v));
    var pre := seq(i, k requires 0 <= k < i => Eval(ops[k], v));
    var post := seq(|ops| - i, k requires 0 <= k < |ops| - i => Eval(ops[i + k], v));
    assert all == pre + post;
    OutcomesSplit(all, pre, post);
    assert Eval(Polyadic(ops), v) == if NoneThrows(all) then Ok(Some(Concat(FoldedValues(all)))) else Err(NullPointer);
    if NoneThrows(all) {
      forall k | 0 <= k < |ops| ensures Eval(ops[k], v).Ok? {
        assert all[k] == Eval(ops[k], v);
      }
      ConcatAppend(FoldedValues(pre), FoldedValues(post));
    } else {
      var k :| 0 <= k < |all| && all[k].Err?;
      assert Eval(ops[k], v).Err?;
    }
  }

  /** What a call with arguments folds to, by the kind of its first argument. */
  lemma CallFirstArgument(name: Option<String>, q: Qualifier, args: seq<Expr>, v: Version)
    requires |args| > 0
    ensures args[0].Lit? ==>
              Eval(Call(name, q, args), v) == Ok(if args[0].lit.StringLit? then Some(args[0].lit.s) else None)
    ensures args[0].Binary? ==> Eval(Call(name, q, args), v) == Eval(args[0], v)
    ensures args[0].Ref? ==>
              Eval(Call(name, q, args), v) == (if v == Jetbrains then Eval(args[0], v) else Ok(Some("")))
    ensures args[0].Call? || args[0].Polyadic? || args[0].Paren? || args[0].Other? ==>
              Eval(Call(name, q, args), v) == Ok(Some(""))
  {
  }

  /** `X.class.getName()` folds to X's qualified name. */
  lemma ClassNameCall(qualified: Option<String>, v: Version)
    ensures Eval(Call(Some("getName"), ClassLiteral(Some(qualified)), []), v) == Ok(qualified)
    ensures Eval(Call(Some("getSimpleName"), ClassLiteral(Some(qualified)), []), v) == Ok(Some(""))
  {
    assert "getSimpleName" != "getName" by { assert |"getSimpleName"| != |"getName"|; }
  }

  // ---------------------------------------------------------------- replaceFirstParam

  /** Where the search for '(' starts: at the first occurrence of the method name, or at 0 without one. */
  function NameStart(text: String, methodName: String): nat
  {
    var p := IndexOf(text, methodName);
    if p < 0 then 0 else p
  }

  /**
   * `i` is the first '(' at or after `start`, and `j` ends the first argument: the first ','
   * from `i` on, or, when there is none, the first ')' from `i` on.
   */
  predicate FirstParamSpan(text: String, start: nat, i: int, j: int)
  {
    start <= i < j < |text| && text[i] == '(' && (forall k :: start <= k < i ==> text[k] != '(') &&
    ((text[j] == ',' && forall k :: i <= k < j ==> text[k] != ',') ||
     (text[j] == ')' && (forall k :: i <= k < |text| ==> text[k] != ',') && forall k :: i <= k < j ==> text[k] != ')'))
  }

  /** The text before the first argument up to '(' and the text from its end on, both trimmed, around the quoted value. */
  function Spliced(text: String, i: nat, j: nat, value: String): String
    requires i < j <= |text|
  {
    Trim(text[..i + 1]) + ['"'] + value + ['"'] + Trim(text[j..])
  }

  /** `replaceFirstParam(text, methodName, value)`: the first argument replaced by `value` in quotes. */
  function ReplaceFirstParam(text: String, methodName: Option<String>, value: Option<String>): (r: String)
    ensures methodName.None? || value.None? ==> r == text
    ensures methodName.Some? && value.Some? ==>
              var start := NameStart(text, methodName.value);
              (exists i, j :: FirstParamSpan(text, start, i, j) && r == Spliced(text, i, j, value.value)) ||
              (r == text && forall i, j :: !FirstParamSpan(text, start, i, j))
  {
    if methodName.None? || value.None? then text
    else
      var start := NameStart(text, methodName.value);
      var open := IndexOfCharFrom(text, '(', IndexOf(text, methodName.value));
      if open == -1 then
        assert forall i, j :: !FirstParamSpan(text, start, i, j) by {
          forall i, j | FirstParamSpan(text, start, i, j) ensures false {
          }
        }
        text
      else
        var comma := IndexOfCharFrom(text, ',', open);
        var end := if comma == -1 then IndexOfCharFrom(text, ')', open) else comma;
        if end == -1 then
          assert forall i, j :: !FirstParamSpan(text, start, i, j) by {
            forall i, j | FirstParamSpan(text, start, i, j) ensures false {
            }
          }
          text
        else
          assert FirstParamSpan(text, start, open, end);
          Spliced(text, open, end, value.value)
  }

  /** The rewritten call keeps its opening parenthesis, and the quoted value is followed by the old separator. */
  lemma ReplaceFirstParamShape(text: String, i: nat, j: nat)
    requires i < j < |text| && text[i] == '(' && (text[j] == ',' || text[j] == ')')
    ensures var pre := Trim(text[..i + 1]);
            var post := Trim(text[j..]);
            pre != [] && pre[|pre| - 1] == '(' && post != [] && post[0] == text[j]
  {
    var pre := text[..i + 1];
    assert !IsSpace(pre[|pre| - 1]);
    TrimKeepsBorders(pre);
    var post := text[j..];
    assert !IsSpace(post[0]);
    TrimKeepsBorders(post);
  }

  /** Trimming keeps a non-space first or last character. */
  lemma TrimKeepsBorders(s: String)
    ensures s != [] && !IsSpace(s[|s| - 1]) ==> Trim(s) != [] && Trim(s)[|Trim(s)| - 1] == s[|s| - 1]
    ensures s != [] && !IsSpace(s[0]) ==> Trim(s) != [] && Trim(s)[0] == s[0]
  {
    if s != [] && !IsSpace(s[|s| - 1]) {
      var t := TrimStart(s);
      assert |t| > 0;
      assert t[|t| - 1] == s[|s| - 1];
      assert TrimEnd(t) == t;
    }
    if s != [] && !IsSpace(s[0]) {
      assert TrimStart(s) == s;
      var r := TrimEnd(s);
      assert |r| > 0;
      assert r[0] == s[0];
    }
  }

  // ---------------------------------------------------------------- SqlSession methods

  /** A resolved method: its containing class (by qualified name, possibly null) and whether `public` is written out. */
  datatype Method = Method(containingClass: Option<Option<String>>, explicitPublic: bool)

  /** `StringUtil.equals`: null equals null. */
  predicate NullableEquals(a: Option<String>, b: Option<String>) { a == b }

  /** `isSqlSessionMethod(PsiMethod)`, identical in both versions; `filters` None is a null filter array. */
  function IsSqlSessionMethod(m: Method, filters: Option<seq<Option<String>>>): (r: bool)
    ensures r <==> m.containingClass.Some? && m.explicitPublic && filters.Some? &&
                   exists k :: 0 <= k < |filters.value| && filters.value[k] == m.containingClass.value
  {
    if m.containingClass.None? || !m.explicitPublic || filters.None? then false
    else AnyEquals(filters.value, m.containingClass.value)
  }

  /** The loop over the class filters: true at the first pattern equal to the name. */
  function AnyEquals(patterns: seq<Option<String>>, name: Option<String>): (r: bool)
    ensures r <==> exists k :: 0 <= k < |patterns| && patterns[k] == name
  {
    if patterns == [] then false
    else if NullableEquals(patterns[0], name) then true
    else
      var rest := AnyEquals(patterns[1..], name);
      assert rest <==> exists k :: 1 <= k < |patterns| && patterns[k] == name by {
        forall k | 1 <= k < |patterns| ensures patterns[k] == patterns[1..][k - 1] {}
      }
      rest
  }

  /**
   * The newer `isSqlSessionMethod(PsiMethodCallExpression)`: an unresolved call or a method
   * without a class throws; there is no `public` test.
   */
  function IsSqlSessionCall(resolved: Option<Method>, filters: Option<seq<Option<String>>>): (r: Result<bool, CallError>)
    ensures resolved.None? || resolved.value.containingClass.None? <==> r == Err(NullPointer)
    ensures r.Ok? ==> (r.value <==> filters.Some? && resolved.value.containingClass.value in filters.value)
  {
    if resolved.None? || resolved.value.containingClass.None? then Err(NullPointer)
    else if filters.None? then Ok(false)
    else Ok(AnyEquals(filters.value, resolved.value.containingClass.value))
  }

  // ---------------------------------------------------------------- SQL ids from naming templates

  const ClassNamePlaceholder: String := "${className}"
  const MethodNamePlaceholder: String := "${methodName}"
  const FieldNamePlaceholder: String := "${fieldName}"
  /** The default naming rules: "${className}", "${className}.${methodName}", "${className}.${fieldName}". */
  const DefaultClassNamingRule: String := ClassNamePlaceholder
  const DefaultMethodNamingRule: String := ClassNamePlaceholder + ("." + MethodNamePlaceholder)
  const DefaultFieldNamingRule: String := ClassNamePlaceholder + ("." + FieldNamePlaceholder)

  /** `calculateClassSqlId`: null without a qualified name. */
  function ClassSqlId(template: String, className: Option<String>): (r: Option<String>)
    ensures r.None? <==> className.None?
  {
    if className.None? then None else Some(ReplaceAll(template, ClassNamePlaceholder, className.value))
  }

  /** `calculateMethodSqlId`: the class placeholder is replaced first, then the member placeholder. */
  function MemberSqlId(template: String, placeholder: String, containingClass: Option<Option<String>>,
                       memberName: Option<String>): (r: Option<String>)
    requires |placeholder| > 0
    ensures r.None? <==> containingClass.None? || containingClass.value.None? || memberName.None?
  {
    if containingClass.None? then None
    else if containingClass.value.None? || memberName.None? then None
    else Some(ReplaceAll(ReplaceAll(template, ClassNamePlaceholder, containingClass.value.value),
                         placeholder, memberName.value))
  }

  function MethodSqlId(template: String, containingClass: Option<Option<String>>, methodName: Option<String>): Option<String>
  {
    MemberSqlId(template, MethodNamePlaceholder, containingClass, methodName)
  }

  function FieldSqlId(template: String, containingClass: Option<Option<String>>, fieldName: Option<String>): Option<String>
  {
    MemberSqlId(template, FieldNamePlaceholder, containingClass, fieldName)
  }

  /** With the default class rule the SQL id is the qualified class name itself. */
  lemma DefaultClassSqlId(className: String)
    ensures ClassSqlId(DefaultClassNamingRule, Some(className)) == Some(className)
  {
    assert DefaultClassNamingRule == ClassNamePlaceholder + [];
    ReplaceAllLeading([], ClassNamePlaceholder, className);
    ReplaceAllShort([], ClassNamePlaceholder, className);
    assert ReplaceAll(DefaultClassNamingRule, ClassNamePlaceholder, className) == className + [];
    assert className + [] == className;
  }

  /** With the default member rules the SQL id is className + "." + member name. */
  lemma DefaultMemberSqlId(className: String, member: String)
    requires '$' !in className
    ensures MethodSqlId(DefaultMethodNamingRule, Some(Some(className)), Some(member)) == Some(className + "." + member)
    ensures FieldSqlId(DefaultFieldNamingRule, Some(Some(className)), Some(member)) == Some(className + "." + member)
  {
    MemberPlaceholdersDiffer(className);
    var t := ClassNamePlaceholder;
    assert t[0] == '$' && MethodNamePlaceholder[0] == '$' && FieldNamePlaceholder[0] == '$';
    TemplateExpands(t, MethodNamePlaceholder, className, member);
    TemplateExpands(t, FieldNamePlaceholder, className, member);
  }

  /** The member placeholders survive the class-name replacement. */
  lemma MemberPlaceholdersDiffer(className: String)
    ensures ReplaceAll(MethodNamePlaceholder, ClassNamePlaceholder, className) == MethodNamePlaceholder
    ensures ReplaceAll(FieldNamePlaceholder, ClassNamePlaceholder, className) == FieldNamePlaceholder
  {
    var t := ClassNamePlaceholder;
    assert t[2] == 'c';
    var m := MethodNamePlaceholder;
    assert m[2] == 'm' && |m| > |t| && m[..|t|][2] == m[2];
    assert forall k :: 1 <= k < |m| ==> m[k] != '$';
    assert '$' !in m[1..];
    UntouchedPlaceholder(m, t, className);
    var f := FieldNamePlaceholder;
    assert f[2] == 'f' && |f| == |t| && f[..|t|][2] == f[2];
    assert forall k :: 1 <= k < |f| ==> f[k] != '$';
    assert '$' !in f[1..];
    UntouchedPlaceholder(f, t, className);
  }

  /** A placeholder that is not the target and holds its first character only in front is left alone. */
  lemma UntouchedPlaceholder(p: String, t: String, r: String)
    requires |t| > 0 && |p| >= |t| && p[..|t|] != t && t[0] !in p[1..]
    ensures ReplaceAll(p, t, r) == p
  {
    ReplaceAllAbsent(p[1..], t, r);
    assert p == [p[0]] + p[1..];
  }

  /** `t + "." + p` with `t` replaced by a class name and then `p` by a member name. */
  lemma TemplateExpands(t: String, p: String, className: String, member: String)
    requires |t| > 0 && |p| > 0 && p[0] == t[0] && t[0] != '.' && t[0] !in className
    requires ReplaceAll(p, t, className) == p
    ensures ReplaceAll(ReplaceAll(t + ("." + p), t, className), p, member) == className + "." + member
  {
    ReplaceAllLeading("." + p, t, className);
    ReplaceAllSkipsPrefix(".", p, t, className);
    var once := ReplaceAll(t + ("." + p), t, className);
    assert once == className + ("." + p);
    assert once == (className + ".") + p;
    var prefix := className + ".";
    assert p[0] !in prefix by {
      assert prefix == className + ['.'];
    }
    ReplaceAllSkipsPrefix(prefix, p, p, member);
    assert ReplaceAll(once, p, member) == prefix + ReplaceAll(p, p, member);
    ReplaceAllLeading([], p, member);
    assert p + [] == p;
    ReplaceAllShort([], p, member);
    assert ReplaceAll(p, p, member) == member;
  }

  // ---------------------------------------------------------------- processMethodCall

  /**
   * The guard of `processMethodCall` in the older version: the SQL id is the folded call, and the
   * pair (SQL id, element record) reaches the cache only when the call is valid, is a SqlSession
   * call and folds to a non-blank id. `info` is the element record, None when there is no file.
   * A fold that throws leaves the method with its exception.
   */
  function ProcessMethodCall<I>(valid: bool, sqlSessionCall: bool, call: Expr, info: Option<I>)
    : (r: Result<Option<(String, I)>, CallError>)
    ensures r.Err? <==> valid && sqlSessionCall && Eval(call, Intellij).Err?
    ensures r.Ok? && r.value.Some? <==>
              valid && sqlSessionCall && Eval(call, Intellij).Ok? && Eval(call, Intellij).value.Some? &&
              !IsBlank(Eval(call, Intellij).value.value) && info.Some?
    ensures r.Ok? && r.value.Some? ==> r.value.value == (Eval(call, Intellij).value.value, info.value)
  {
    if !valid || !sqlSessionCall then Ok(None)
    else
      var sqlId := Eval(call, Intellij);
      if sqlId.Err? then Err(sqlId.error)
      else if sqlId.value.None? || IsBlank(sqlId.value.value) then Ok(None)
      else if info.None? then Ok(None)
      else Ok(Some((sqlId.value.value, info.value)))
  }

  /** A call whose first argument is a non-string literal, or a blank string, stores nothing. */
  lemma ProcessMethodCallSkips<I>(name: Option<String>, q: Qualifier, rest: seq<Expr>, lit: Literal, info: Option<I>)
    requires !lit.StringLit? || IsBlank(lit.s)
    ensures ProcessMethodCall(true, true, Call(name, q, [Lit(lit)] + rest), info) == Ok(None)
  {
    var args := [Lit(lit)] + rest;
    assert args[0] == Lit(lit);
    EvalLiteralArgument(name, q, args, Intellij);
  }

  /** A call whose first argument is a literal is worth that literal's string, or null. */
  lemma EvalLiteralArgument(name: Option<String>, q: Qualifier, args: seq<Expr>, v: Version)
    requires |args| > 0 && args[0].Lit?
    ensures Eval(Call(name, q, args), v) == Ok(if args[0].lit.StringLit? then Some(args[0].lit.s) else None)
  {
  }
}
