/** What the type pass guarantees: its rules for `+`, `-`, `&`, `*` and
    `sizeof`, the order in which it reports errors, and that running it a
    second time changes nothing. */
module TypingFacts {
  import opened Errors
  import opened Types
  import opened Ast
  import opened Typing

  // ---------------------------------------------------------------------
  // Idempotence

  /** A resolved tree is a fixed point of `visit`. */
  lemma {:induction false} VisitFixesResolved(e: Expr)
    requires Resolved(e)
    ensures Visit(e) == Ok(e)
    decreases e, 1
  {
    match e
    case Num(_, _) =>
    case VarRef(_, _) =>
    case Binary(op, a, b, t) =>
      VisitFixesResolved(a);
      VisitFixesResolved(b);
    case Assign(a, b, _) =>
      VisitFixesResolved(a);
      VisitFixesResolved(b);
    case Addr(a, _) =>
      VisitFixesResolved(a);
    case Deref(a, _) =>
      VisitFixesResolved(a);
    case SizeOf(_, _) =>
    case Call(_, args, _, _) =>
      VisitArgsFixesResolved(args);
  }

  lemma {:induction false} VisitArgsFixesResolved(args: seq<Expr>)
    requires forall i :: 0 <= i < |args| ==> Resolved(args[i])
    ensures VisitArgs(args) == Ok(args)
    decreases args, 0
  {
    if args != [] {
      VisitFixesResolved(args[0]);
      VisitArgsFixesResolved(args[1..]);
      assert [args[0]] + args[1..] == args;
    }
  }

  /** Visiting an annotated tree again gives it back unchanged. */
  lemma VisitIdempotent(e: Expr)
    requires Visit(e).Ok?
    ensures Visit(Visit(e).value) == Visit(e)
  {
    VisitFixesResolved(Visit(e).value);
  }

  lemma {:induction false} VisitOptFixesResolved(e: Option<Expr>)
    requires OptResolved(e)
    ensures VisitOpt(e) == Ok(e)
  {
    if e.Some? {
      VisitFixesResolved(e.value);
    }
  }

  lemma {:induction false} VisitStmtFixesResolved(s: Stmt)
    requires StmtResolved(s)
    ensures VisitStmt(s) == Ok(s)
    decreases s, 1
  {
    match s
    case ReturnStmt(e) => VisitFixesResolved(e);
    case ExprStmt(e) => VisitFixesResolved(e);
    case IfStmt(c, t, els) =>
      VisitFixesResolved(c);
      VisitStmtFixesResolved(t);
      if els.Some? {
        VisitStmtFixesResolved(els.value);
      }
    case WhileStmt(c, body) =>
      VisitFixesResolved(c);
      VisitStmtFixesResolved(body);
    case ForStmt(init, test, inc, body) =>
      VisitOptFixesResolved(init);
      VisitOptFixesResolved(test);
      VisitOptFixesResolved(inc);
      VisitStmtFixesResolved(body);
    case Block(ss) =>
      VisitStmtsFixesResolved(ss);
    case Null =>
  }

  lemma {:induction false} VisitStmtsFixesResolved(ss: seq<Stmt>)
    requires forall k :: 0 <= k < |ss| ==> StmtResolved(ss[k])
    ensures VisitStmts(ss) == Ok(ss)
    decreases ss, 0
  {
    if ss != [] {
      VisitStmtFixesResolved(ss[0]);
      VisitStmtsFixesResolved(ss[1..]);
      assert [ss[0]] + ss[1..] == ss;
    }
  }

  /** Every function `add_type` returns has only resolved statements. */
  lemma {:induction false} TypeFunctionsResolve(fs: seq<Function>)
    requires TypeFunctions(fs).Ok?
    ensures forall i, k :: 0 <= i < |fs| && 0 <= k < |TypeFunctions(fs).value[i].body| ==>
              StmtResolved(TypeFunctions(fs).value[i].body[k])
  {
    if fs != [] {
      TypeFunctionsResolve(fs[1..]);
      var out := TypeFunctions(fs).value;
      forall i, k | 0 <= i < |fs| && 0 <= k < |out[i].body|
        ensures StmtResolved(out[i].body[k])
      {
        if i > 0 {
          assert out[i] == TypeFunctions(fs[1..]).value[i - 1];
        }
      }
    }
  }

  lemma {:induction false} TypeFunctionsFixResolved(fs: seq<Function>)
    requires forall i, k :: 0 <= i < |fs| && 0 <= k < |fs[i].body| ==> StmtResolved(fs[i].body[k])
    ensures TypeFunctions(fs) == Ok(fs)
  {
    if fs != [] {
      VisitStmtsFixesResolved(fs[0].body);
      assert TypeFunction(fs[0]) == Ok(fs[0]);
      TypeFunctionsFixResolved(fs[1..]);
      assert [fs[0]] + fs[1..] == fs;
    }
  }

  /** Running `add_type` on its own output changes nothing. */
  lemma AddTypeIdempotent(fs: seq<Function>)
    requires TypeFunctions(fs).Ok?
    ensures TypeFunctions(TypeFunctions(fs).value) == TypeFunctions(fs)
  {
    TypeFunctionsResolve(fs);
    TypeFunctionsFixResolved(TypeFunctions(fs).value);
  }

  // ---------------------------------------------------------------------
  // The rules

  /** `+`: the pointer operand ends up on the left and gives the type; two
      pointers are an error. */
  lemma AddRule(a: Expr, b: Expr, t: Option<Type>)
    requires Visit(a).Ok? && Visit(b).Ok?
    ensures var ta, tb := Visit(a).value, Visit(b).value;
            var r := Visit(Binary(Add, a, b, t));
            (r.Fail? <==> HasBase(TypeOf(ta)) && HasBase(TypeOf(tb))) &&
            (r.Fail? ==> r.error == InvalidPointerArithmetic) &&
            (r.Ok? && HasBase(TypeOf(tb)) ==> r.value == Binary(Add, tb, ta, tb.ty)) &&
            (r.Ok? && !HasBase(TypeOf(tb)) ==> r.value == Binary(Add, ta, tb, ta.ty))
  {
  }

  /** `-`: a pointer on the right is an error, whatever is on the left;
      otherwise the left operand gives the type. */
  lemma SubRule(a: Expr, b: Expr, t: Option<Type>)
    requires Visit(a).Ok? && Visit(b).Ok?
    ensures var ta, tb := Visit(a).value, Visit(b).value;
            var r := Visit(Binary(Sub, a, b, t));
            (r.Fail? <==> HasBase(TypeOf(tb))) &&
            (r.Fail? ==> r.error == InvalidPointerArithmetic) &&
            (r.Ok? ==> r.value.ty == ta.ty)
  {
  }

  /** Comparisons, `*`, `/`, numbers and calls are `int`. */
  lemma IntRule(op: BinOp, a: Expr, b: Expr, t: Option<Type>)
    requires op != Add && op != Sub && Visit(a).Ok? && Visit(b).Ok?
    ensures Visit(Binary(op, a, b, t)).Ok? && Visit(Binary(op, a, b, t)).value.ty == Some(Int)
  {
  }

  /** `&x` of an array is a pointer to its element type, not to the array. */
  lemma AddrOfArray(a: Expr, t: Option<Type>, base: Type, n: int)
    requires Visit(a).Ok? && TypeOf(Visit(a).value) == Array(base, n)
    ensures Visit(Addr(a, t)).Ok? && Visit(Addr(a, t)).value.ty == Some(Ptr(base))
  {
  }

  /** `*e` succeeds exactly when `e` is a pointer or an array, and has its base type. */
  lemma DerefRule(a: Expr, t: Option<Type>)
    requires Visit(a).Ok?
    ensures var ta := Visit(a).value;
            var r := Visit(Deref(a, t));
            (r.Ok? <==> HasBase(TypeOf(ta))) &&
            (r.Fail? ==> r.error == InvalidPointerDereference) &&
            (r.Ok? ==> r.value.ty == Some(TypeOf(ta).base))
  {
  }

  /** `sizeof e` becomes the number node holding the size of `e`'s type;
      the operand itself is gone. */
  lemma SizeOfRule(a: Expr, t: Option<Type>)
    requires Visit(a).Ok?
    ensures Visit(SizeOf(a, t)) == Ok(Num(Types.SizeOf(TypeOf(Visit(a).value)), Some(Int)))
  {
  }

  /** `sizeof 1` is 4, and `sizeof x` is 4, 8 or 12 for `int x`, `int *x`
      and `int x[3]`. */
  lemma SizeOfExamples()
    ensures Visit(SizeOf(N(1), None)) == Ok(Num(4, Some(Int)))
    ensures Visit(SizeOf(VarRef(Var("x", Int, true, 0), None), None)) == Ok(Num(4, Some(Int)))
    ensures Visit(SizeOf(VarRef(Var("x", Ptr(Int), true, 0), None), None)) == Ok(Num(8, Some(Int)))
    ensures Visit(SizeOf(VarRef(Var("x", Array(Int, 3), true, 0), None), None)) == Ok(Num(12, Some(Int)))
  {
  }

  /** `sizeof &x` is 8 for `int x`, and `sizeof *p` is 8 for `int **p`. */
  lemma SizeOfPointerExamples()
    ensures Visit(SizeOf(Addr(VarRef(Var("x", Int, true, 0), None), None), None)) == Ok(Num(8, Some(Int)))
    ensures Visit(SizeOf(Deref(VarRef(Var("p", Ptr(Ptr(Int)), true, 0), None), None), None)) == Ok(Num(8, Some(Int)))
  {
  }

  // ---------------------------------------------------------------------
  // Which error is reported

  /** Children are visited before the node's own rule, left operand first:
      the first failing child's error is the one reported. */
  lemma ChildErrorFirst(op: BinOp, a: Expr, b: Expr, t: Option<Type>)
    ensures Visit(a).Fail? ==> Visit(Binary(op, a, b, t)) == Fail(Visit(a).error)
    ensures Visit(a).Ok? && Visit(b).Fail? ==> Visit(Binary(op, a, b, t)) == Fail(Visit(b).error)
  {
  }

  /** A `for` visits its condition and body before its initialiser and
      increment, so an error in the condition or the body is reported even
      when the initialiser is wrong too. */
  lemma ForVisitOrder(init: Option<Expr>, test: Option<Expr>, inc: Option<Expr>, body: Stmt)
    ensures VisitOpt(test).Fail? ==> VisitStmt(ForStmt(init, test, inc, body)) == Fail(VisitOpt(test).error)
    ensures VisitOpt(test).Ok? && VisitStmt(body).Fail? ==>
              VisitStmt(ForStmt(init, test, inc, body)) == Fail(VisitStmt(body).error)
    ensures VisitOpt(test).Ok? && VisitStmt(body).Ok? && VisitOpt(init).Fail? ==>
              VisitStmt(ForStmt(init, test, inc, body)) == Fail(VisitOpt(init).error)
  {
  }

  /** For example, with `int x`, `for (*1; 1 - &x;) ;` reports the
      condition's pointer arithmetic error, not the initialiser's
      dereference error, although each clause alone fails with its own. */
  lemma ForReportsConditionFirst()
    ensures VisitOpt(Some(Deref(N(1), None))) == Fail(InvalidPointerDereference)
    ensures VisitOpt(Some(Binary(Sub, N(1), Addr(VarRef(Var("x", Int, true, 0), None), None), None)))
         == Fail(InvalidPointerArithmetic)
    ensures VisitStmt(ForStmt(Some(Deref(N(1), None)),
                              Some(Binary(Sub, N(1), Addr(VarRef(Var("x", Int, true, 0), None), None), None)),
                              None, Null))
         == Fail(InvalidPointerArithmetic)
  {
  }
}
