/** The type pass of type.c. `visit` walks a tree children first and fills
    in each expression node's type; on the way it moves a pointer operand
    of `+` to the left, rejects pointer arithmetic it cannot compile and
    dereferences of non-pointers, and replaces `sizeof e` by the size of
    `e`'s type. The walk is modelled as a function that returns the
    annotated tree. */
module Typing {
  import opened Errors
  import opened Types
  import opened Ast

  /** The type of an annotated node. */
  function TypeOf(e: Expr): Type
    requires e.ty.Some?
  {
    e.ty.value
  }

  /** The type of `&e`: a pointer to the element for an array, else a pointer to `e`'s type. */
  function AddrType(t: Type): (r: Type)
    ensures r.Ptr? && r.base == (if t.Array? then t.base else t)
  {
    if t.Array? then Ptr(t.base) else Ptr(t)
  }

  // ---------------------------------------------------------------------
  // The rules, applied to a node whose children are already annotated

  /** The `switch` of `visit` for a binary node whose operands `a` and `b`
      are annotated. */
  function TypeBinary(op: BinOp, a: Expr, b: Expr): Result<Expr>
    requires a.ty.Some? && b.ty.Some?
  {
    match op
    case Add =>
      var (l, r) := if HasBase(TypeOf(b)) then (b, a) else (a, b);
      if HasBase(TypeOf(r)) then Fail(InvalidPointerArithmetic)
      else Ok(Binary(Add, l, r, l.ty))
    case Sub =>
      if HasBase(TypeOf(b)) then Fail(InvalidPointerArithmetic)
      else Ok(Binary(Sub, a, b, a.ty))
    case _ => Ok(Binary(op, a, b, Some(Int)))
  }

  /** `visit` on an expression: children first (`lhs`, `rhs`, then the
      arguments in order), then the node's own rule. */
  function Visit(e: Expr): (r: Result<Expr>)
    ensures r.Ok? ==> Resolved(r.value)
    decreases e, 1
  {
    match e
    case Num(v, _) => Ok(Num(v, Some(Int)))
    case VarRef(v, _) => Ok(VarRef(v, Some(v.ty)))
    case Binary(op, a, b, _) =>
      var ta :- Visit(a);
      var tb :- Visit(b);
      TypeBinary(op, ta, tb)
    case Assign(a, b, _) =>
      var ta :- Visit(a);
      var tb :- Visit(b);
      Ok(Assign(ta, tb, ta.ty))
    case Addr(a, _) =>
      var ta :- Visit(a);
      Ok(Addr(ta, Some(AddrType(TypeOf(ta)))))
    case Deref(a, _) =>
      var ta :- Visit(a);
      if !HasBase(TypeOf(ta)) then Fail(InvalidPointerDereference)
      else Ok(Deref(ta, Some(TypeOf(ta).base)))
    case SizeOf(a, _) =>
      var ta :- Visit(a);
      Ok(Num(Types.SizeOf(TypeOf(ta)), Some(Int)))
    case Call(name, args, argnum, _) =>
      var targs :- VisitArgs(args);
      Ok(Call(name, targs, argnum, Some(Int)))
  }

  /** The `for (n = node->args; n; n = n->next) visit(n)` loop. */
  function VisitArgs(args: seq<Expr>): (r: Result<seq<Expr>>)
    ensures r.Ok? ==> |r.value| == |args| && forall i :: 0 <= i < |args| ==> Resolved(r.value[i])
    decreases args, 0
  {
    if args == [] then Ok([])
    else
      var t :- Visit(args[0]);
      var ts :- VisitArgs(args[1..]);
      Ok([t] + ts)
  }

  /** A tree `visit` has finished with: every node is annotated by its rule,
      no `sizeof` is left, and no `+` or `-` has a pointer on the right. */
  predicate Resolved(e: Expr)
    decreases e
  {
    e.ty.Some? &&
    match e
    case Num(_, t) => t == Some(Int)
    case VarRef(v, t) => t == Some(v.ty)
    case Binary(op, a, b, t) =>
      Resolved(a) && Resolved(b) &&
      (if op == Add || op == Sub then !HasBase(TypeOf(b)) && t == a.ty else t == Some(Int))
    case Assign(a, b, t) => Resolved(a) && Resolved(b) && t == a.ty
    case Addr(a, t) => Resolved(a) && t == Some(AddrType(TypeOf(a)))
    case Deref(a, t) => Resolved(a) && HasBase(TypeOf(a)) && t == Some(TypeOf(a).base)
    case SizeOf(_, _) => false
    case Call(_, args, _, t) => t == Some(Int) && forall i :: 0 <= i < |args| ==> Resolved(args[i])
  }

  // ---------------------------------------------------------------------
  // Statements and functions

  predicate OptResolved(e: Option<Expr>) {
    e.Some? ==> Resolved(e.value)
  }

  /** A statement every expression of which is `Resolved`. */
  predicate StmtResolved(s: Stmt)
    decreases s
  {
    match s
    case ReturnStmt(e) => Resolved(e)
    case ExprStmt(e) => Resolved(e)
    case IfStmt(c, t, els) => Resolved(c) && StmtResolved(t) && (els.Some? ==> StmtResolved(els.value))
    case WhileStmt(c, body) => Resolved(c) && StmtResolved(body)
    case ForStmt(init, test, inc, body) => OptResolved(init) && OptResolved(test) && OptResolved(inc) && StmtResolved(body)
    case Block(ss) => forall k :: 0 <= k < |ss| ==> StmtResolved(ss[k])
    case Null => true
  }

  function VisitOpt(e: Option<Expr>): (r: Result<Option<Expr>>)
    ensures r.Ok? ==> (r.value.Some? <==> e.Some?) && OptResolved(r.value)
  {
    match e
    case None => Ok(None)
    case Some(x) =>
      var tx :- Visit(x);
      Ok(Some(tx))
  }

  /** `visit` on a statement node: its expression and statement children in
      the field order `lhs`, `cond`, `then`, `els`, `init`, `inc`, `body`;
      a `for` therefore checks its condition and body before its
      initialiser and increment. Statements get no type of their own. */
  function VisitStmt(s: Stmt): (r: Result<Stmt>)
    ensures r.Ok? ==> StmtResolved(r.value)
    decreases s, 1
  {
    match s
    case ReturnStmt(e) =>
      var te :- Visit(e);
      Ok(ReturnStmt(te))
    case ExprStmt(e) =>
      var te :- Visit(e);
      Ok(ExprStmt(te))
    case IfStmt(c, t, els) =>
      var tc :- Visit(c);
      var tt :- VisitStmt(t);
      var te :- match els
                case None => Ok(None)
                case Some(x) => (var tx :- VisitStmt(x); Ok(Some(tx)));
      Ok(IfStmt(tc, tt, te))
    case WhileStmt(c, body) =>
      var tc :- Visit(c);
      var tb :- VisitStmt(body);
      Ok(WhileStmt(tc, tb))
    case ForStmt(init, test, inc, body) =>
      var tc :- VisitOpt(test);
      var tb :- VisitStmt(body);
      var ti :- VisitOpt(init);
      var tn :- VisitOpt(inc);
      Ok(ForStmt(ti, tc, tn, tb))
    case Block(ss) =>
      var tss :- VisitStmts(ss);
      Ok(Block(tss))
    case Null => Ok(Null)
  }

  /** Statements of a list, in order; the first failure stops the walk. */
  function VisitStmts(ss: seq<Stmt>): (r: Result<seq<Stmt>>)
    ensures r.Ok? ==> |r.value| == |ss| && forall k :: 0 <= k < |ss| ==> StmtResolved(r.value[k])
    decreases ss, 0
  {
    if ss == [] then Ok([])
    else
      var t :- VisitStmt(ss[0]);
      var ts :- VisitStmts(ss[1..]);
      Ok([t] + ts)
  }

  /** `add_type` for one function: its statements, in order. */
  function TypeFunction(f: Function): (r: Result<Function>)
    ensures r.Ok? ==> r.value.name == f.name && r.value.params == f.params && r.value.locals == f.locals
                      && r.value.stackSize == f.stackSize && |r.value.body| == |f.body|
  {
    var body :- VisitStmts(f.body);
    Ok(f.(body := body))
  }

  /** `add_type`: every function, in order. */
  function TypeFunctions(fs: seq<Function>): (r: Result<seq<Function>>)
    ensures r.Ok? ==> |r.value| == |fs|
  {
    if fs == [] then Ok([])
    else
      var f :- TypeFunction(fs[0]);
      var rest :- TypeFunctions(fs[1..]);
      Ok([f] + rest)
  }

  /** Typing a list is typing its two halves. */
  lemma {:induction false} VisitStmtsAppend(a: seq<Stmt>, b: seq<Stmt>)
    ensures VisitStmts(a + b) ==
            match VisitStmts(a)
            case Fail(e) => Fail(e)
            case Ok(ta) =>
              match VisitStmts(b)
              case Fail(e) => Fail(e)
              case Ok(tb) => Ok(ta + tb)
    decreases |a|
  {
    if a != [] {
      assert (a + b)[1..] == a[1..] + b;
      VisitStmtsAppend(a[1..], b);
      if VisitStmts(a).Ok? && VisitStmts(b).Ok? {
        assert [VisitStmts(a).value[0]] + (VisitStmts(a[1..]).value + VisitStmts(b).value)
            == VisitStmts(a).value + VisitStmts(b).value;
      }
    } else {
      assert a + b == b;
      if VisitStmts(b).Ok? {
        assert [] + VisitStmts(b).value == VisitStmts(b).value;
      }
    }
  }

  lemma {:induction false} TypeFunctionsAppend(a: seq<Function>, b: seq<Function>)
    ensures TypeFunctions(a + b) ==
            match TypeFunctions(a)
            case Fail(e) => Fail(e)
            case Ok(ta) =>
              match TypeFunctions(b)
              case Fail(e) => Fail(e)
              case Ok(tb) => Ok(ta + tb)
    decreases |a|
  {
    if a != [] {
      assert (a + b)[1..] == a[1..] + b;
      TypeFunctionsAppend(a[1..], b);
      if TypeFunctions(a).Ok? && TypeFunctions(b).Ok? {
        assert [TypeFunctions(a).value[0]] + (TypeFunctions(a[1..]).value + TypeFunctions(b).value)
            == TypeFunctions(a).value + TypeFunctions(b).value;
      }
    } else {
      assert a + b == b;
      if TypeFunctions(b).Ok? {
        assert [] + TypeFunctions(b).value == TypeFunctions(b).value;
      }
    }
  }

  lemma VisitStmtsOne(x: Stmt)
    ensures VisitStmts([x]) == match VisitStmt(x) case Ok(t) => Ok([t]) case Fail(e) => Fail(e)
  {
    assert [x][1..] == [];
    assert VisitStmts([]) == Ok([]);
    if VisitStmt(x).Ok? {
      assert [VisitStmt(x).value] + [] == [VisitStmt(x).value];
    }
  }

  lemma TypeFunctionsOne(f: Function)
    ensures TypeFunctions([f]) == match TypeFunction(f) case Ok(t) => Ok([t]) case Fail(e) => Fail(e)
  {
    assert [f][1..] == [];
    assert TypeFunctions([]) == Ok([]);
    if TypeFunction(f).Ok? {
      assert [TypeFunction(f).value] + [] == [TypeFunction(f).value];
    }
  }

  /** The walk over a list stops at its first failing statement. */
  lemma VisitStmtsFirstFailure(ss: seq<Stmt>, j: nat)
    requires j < |ss| && VisitStmts(ss[..j]).Ok? && VisitStmt(ss[j]).Fail?
    ensures VisitStmts(ss) == Fail(VisitStmt(ss[j]).error)
  {
    assert ss == ss[..j] + ss[j..];
    VisitStmtsAppend(ss[..j], ss[j..]);
    assert ss[j..][0] == ss[j];
  }

  lemma TypeFunctionsFirstFailure(fs: seq<Function>, i: nat)
    requires i < |fs| && TypeFunctions(fs[..i]).Ok? && TypeFunction(fs[i]).Fail?
    ensures TypeFunctions(fs) == Fail(TypeFunction(fs[i]).error)
  {
    assert fs == fs[..i] + fs[i..];
    TypeFunctionsAppend(fs[..i], fs[i..]);
    assert fs[i..][0] == fs[i];
  }

  /** `add_type`'s two loops, over the functions and over each function's
      statements, each statement handed to `visit`. */
  method AddType(fs: seq<Function>) returns (r: Result<seq<Function>>)
    ensures r == TypeFunctions(fs)
  {
    var done: seq<Function> := [];
    for i := 0 to |fs|
      invariant TypeFunctions(fs[..i]) == Ok(done)
    {
      var f := fs[i];
      var body: seq<Stmt> := [];
      for j := 0 to |f.body|
        invariant VisitStmts(f.body[..j]) == Ok(body)
      {
        var s := VisitStmt(f.body[j]);
        if s.Fail? {
          VisitStmtsFirstFailure(f.body, j);
          TypeFunctionsFirstFailure(fs, i);
          return Fail(s.error);
        }
        assert f.body[..j + 1] == f.body[..j] + [f.body[j]];
        VisitStmtsOne(f.body[j]);
        VisitStmtsAppend(f.body[..j], [f.body[j]]);
        body := body + [s.value];
      }
      assert f.body[..|f.body|] == f.body;
      assert fs[..i + 1] == fs[..i] + [f];
      TypeFunctionsOne(f);
      TypeFunctionsAppend(fs[..i], [f]);
      done := done + [f.(body := body)];
    }
    assert fs[..|fs|] == fs;
    return Ok(done);
  }
}
