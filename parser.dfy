/** The parser of parse.c as it runs: a global token cursor that each
    routine advances, and the `locals`/`globals` lists that `push_var`
    prepends to. Every routine is proved to do exactly what the function of
    the same rule in `ParseSpec` computes: the same node, the same cursor
    and symbol tables afterwards, and the same error. */
module Parser {
  import opened Errors
  import opened Types
  import opened Ast
  import opened Tokenize
  import opened ParseSpec

  /** A routine's outcome `r`, with the cursor left at `rest`, is what the
      rule's function `s` computes. */
  predicate Agrees<T(==)>(r: Result<T>, rest: seq<Token>, s: Result<(T, seq<Token>)>) {
    match s
    case Ok(p) => r == Ok(p.0) && rest == p.1
    case Fail(e) => r == Fail(e)
  }

  /** The same for routines that may also push variables. */
  predicate AgreesIn<T(==)>(r: Result<T>, rest: seq<Token>, sc: Scope, s: Result<Parsed<T>>) {
    match s
    case Ok(p) => r == Ok(p.node) && rest == p.rest && sc == p.scope
    case Fail(e) => r == Fail(e)
  }

  class Parser {
    /** The global `token`. */
    const cur: Cursor
    /** The global `locals` and `globals` lists, most recent first. */
    var locals: seq<Var>
    var globals: seq<Var>

    constructor (ts: seq<Token>)
      ensures fresh(cur) && cur.rest == ts && locals == [] && globals == []
    {
      cur := new Cursor(ts);
      locals := [];
      globals := [];
    }

    function Scope(): Scope
      reads this
    {
      ParseSpec.Scope(locals, globals)
    }

    /** `push_var`. */
    method PushVar(name: string, ty: Type, isLocal: bool) returns (v: Var)
      modifies this
      ensures (v, Scope()) == ParseSpec.PushVar(old(Scope()), name, ty, isLocal)
    {
      v := Var(name, ty, isLocal, 0);
      if isLocal {
        locals := [v] + locals;
      } else {
        globals := [v] + globals;
      }
    }

    // -------------------------------------------------------------------
    // Expressions: they move the cursor and leave the symbol tables alone.

    method ParseExpr() returns (r: Result<Expr>)
      modifies cur
      ensures Agrees(r, cur.rest, Expression(old(cur.rest), Scope()))
      decreases |cur.rest|, 9
    {
      r := ParseAssign();
    }

    method ParseAssign() returns (r: Result<Expr>)
      modifies cur
      ensures Agrees(r, cur.rest, AssignExpr(old(cur.rest), Scope()))
      decreases |cur.rest|, 8
    {
      var node :- ParseEquality();
      var ok := cur.Consume("=");
      if ok {
        var rhs :- ParseAssign();
        node := Assign(node, rhs, None);
      }
      return Ok(node);
    }

    method ParseEquality() returns (r: Result<Expr>)
      modifies cur
      ensures Agrees(r, cur.rest, Equality(old(cur.rest), Scope()))
      decreases |cur.rest|, 7
    {
      ghost var sc, ts := Scope(), cur.rest;
      var node :- ParseRelational();
      while true
        invariant EqualityTail(node, cur.rest, sc) == Equality(ts, sc)
        decreases |cur.rest|
      {
        var ok := cur.Consume("==");
        if ok {
          var rhs :- ParseRelational();
          node := Bin(Eq, node, rhs);
          continue;
        }
        ok := cur.Consume("!=");
        if ok {
          var rhs :- ParseRelational();
          node := Bin(Ne, node, rhs);
          continue;
        }
        return Ok(node);
      }
    }

    method ParseRelational() returns (r: Result<Expr>)
      modifies cur
      ensures Agrees(r, cur.rest, Relational(old(cur.rest), Scope()))
      decreases |cur.rest|, 6
    {
      ghost var sc, ts := Scope(), cur.rest;
      var node :- ParseAdd();
      while true
        invariant RelationalTail(node, cur.rest, sc) == Relational(ts, sc)
        decreases |cur.rest|
      {
        var ok := cur.Consume("<");
        if ok {
          var rhs :- ParseAdd();
          node := Bin(Lt, node, rhs);
          continue;
        }
        ok := cur.Consume("<=");
        if ok {
          var rhs :- ParseAdd();
          node := Bin(Le, node, rhs);
          continue;
        }
        ok := cur.Consume(">");
        if ok {
          var lhs :- ParseAdd();
          node := Bin(Lt, lhs, node);
          continue;
        }
        ok := cur.Consume(">=");
        if ok {
          var lhs :- ParseAdd();
          node := Bin(Le, lhs, node);
          continue;
        }
        return Ok(node);
      }
    }

    method ParseAdd() returns (r: Result<Expr>)
      modifies cur
      ensures Agrees(r, cur.rest, AddExpr(old(cur.rest), Scope()))
      decreases |cur.rest|, 5
    {
      ghost var sc, ts := Scope(), cur.rest;
      var node :- ParseMul();
      while true
        invariant AddTail(node, cur.rest, sc) == AddExpr(ts, sc)
        decreases |cur.rest|
      {
        var ok := cur.Consume("+");
        if ok {
          var rhs :- ParseMul();
          node := Bin(Add, node, rhs);
          continue;
        }
        ok := cur.Consume("-");
        if ok {
          var rhs :- ParseMul();
          node := Bin(Sub, node, rhs);
          continue;
        }
        return Ok(node);
      }
    }

    method ParseMul() returns (r: Result<Expr>)
      modifies cur
      ensures Agrees(r, cur.rest, MulExpr(old(cur.rest), Scope()))
      decreases |cur.rest|, 4
    {
      ghost var sc, ts := Scope(), cur.rest;
      var node :- ParseUnary();
      while true
        invariant MulTail(node, cur.rest, sc) == MulExpr(ts, sc)
        decreases |cur.rest|
      {
        var ok := cur.Consume("*");
        if ok {
          var rhs :- ParseUnary();
          node := Bin(Mul, node, rhs);
          continue;
        }
        ok := cur.Consume("/");
        if ok {
          var rhs :- ParseUnary();
          node := Bin(Div, node, rhs);
          continue;
        }
        return Ok(node);
      }
    }

    method ParseUnary() returns (r: Result<Expr>)
      modifies cur
      ensures Agrees(r, cur.rest, UnaryExpr(old(cur.rest), Scope()))
      decreases |cur.rest|, 3
    {
      var ok := cur.Consume("sizeof");
      if ok {
        var e :- ParseUnary();
        return Ok(SizeOf(e, None));
      }
      ok := cur.Consume("+");
      if ok {
        r := ParseUnary();
        return;
      }
      ok := cur.Consume("-");
      if ok {
        var e :- ParseUnary();
        return Ok(Bin(Sub, N(0), e));
      }
      ok := cur.Consume("&");
      if ok {
        var e :- ParseUnary();
        return Ok(Addr(e, None));
      }
      ok := cur.Consume("*");
      if ok {
        var e :- ParseUnary();
        return Ok(Deref(e, None));
      }
      r := ParsePostfix();
    }

    method ParsePostfix() returns (r: Result<Expr>)
      modifies cur
      ensures Agrees(r, cur.rest, PostfixExpr(old(cur.rest), Scope()))
      decreases |cur.rest|, 2
    {
      ghost var sc, ts := Scope(), cur.rest;
      var node :- ParsePrimary();
      while true
        invariant PostfixTail(node, cur.rest, sc) == PostfixExpr(ts, sc)
        decreases |cur.rest|
      {
        var ok := cur.Consume("[");
        if !ok {
          return Ok(node);
        }
        var index :- ParseExpr();
        var _ :- cur.Expect("]");
        node := Deref(Bin(Add, node, index), None);
      }
    }

    method ParsePrimary() returns (r: Result<Expr>)
      modifies cur
      ensures Agrees(r, cur.rest, Primary(old(cur.rest), Scope()))
      decreases |cur.rest|, 1
    {
      ghost var sc, ts := Scope(), cur.rest;
      var ok := cur.Consume("(");
      if ok {
        var node :- ParseExpr();
        var _ :- cur.Expect(")");
        return Ok(node);
      }
      var tok := cur.ConsumeIdent();
      if tok.None? {
        var v :- cur.ExpectNum();
        return Ok(N(v));
      }
      ok := cur.Consume("(");
      if ok {
        ghost var after := cur.rest;
        ok := cur.Consume(")");
        if ok {
          return Ok(Call(tok.value.text, [], 0, None));
        }
        var first :- ParseExpr();
        var args, argnum := [first], 1;
        while true
          invariant ArgsTail(args, cur.rest, sc) == CallArgs(after, sc)
          invariant argnum == |args|
          decreases |cur.rest|
        {
          ok := cur.Consume(",");
          if !ok {
            break;
          }
          var e :- ParseExpr();
          args := args + [e];
          argnum := argnum + 1;
        }
        var _ :- cur.Expect(")");
        return Ok(Call(tok.value.text, args, argnum, None));
      }
      match FindVar(Scope(), tok.value.text)
      case None =>
        return Fail(UndefinedVariable(tok.value.pos, tok.value.text));
      case Some(v) =>
        return Ok(VarRef(v, None));
    }

    // -------------------------------------------------------------------
    // Types in declarations

    /** `basetype`: `int`, then one pointer level per `*`. */
    method ParseBaseType() returns (r: Result<Type>)
      modifies cur
      ensures Agrees(r, cur.rest, BaseType(old(cur.rest)))
    {
      var _ :- cur.Expect("int");
      ghost var afterInt := cur.rest;
      var ty := Int;
      while true
        invariant Stars(ty, cur.rest) == Stars(Int, afterInt)
        decreases |cur.rest|
      {
        var ok := cur.Consume("*");
        if !ok {
          break;
        }
        ty := Ptr(ty);
      }
      return Ok(ty);
    }

    /** `read_type_suffix`. */
    method ParseTypeSuffix(base: Type) returns (r: Result<Type>)
      modifies cur
      ensures Agrees(r, cur.rest, TypeSuffix(base, old(cur.rest)))
      decreases |cur.rest|
    {
      var ok := cur.Consume("[");
      if !ok {
        return Ok(base);
      }
      var size :- cur.ExpectNum();
      var _ :- cur.Expect("]");
      var inner :- ParseTypeSuffix(base);
      return Ok(Array(inner, size));
    }

    // -------------------------------------------------------------------
    // Statements

    /** `stmt`. */
    method ParseStmt() returns (r: Result<Stmt>)
      modifies this, cur
      ensures AgreesIn(r, cur.rest, Scope(), Statement(old(cur.rest), old(Scope())))
      decreases |cur.rest|, 2
    {
      var ok := cur.Consume("return");
      if ok {
        var e :- ParseExpr();
        var _ :- cur.Expect(";");
        return Ok(ReturnStmt(e));
      }
      ok := cur.Consume("if");
      if ok {
        var _ :- cur.Expect("(");
        var c :- ParseExpr();
        var _ :- cur.Expect(")");
        var t :- ParseStmt();
        ok := cur.Consume("else");
        if ok {
          var e :- ParseStmt();
          return Ok(IfStmt(c, t, Some(e)));
        }
        return Ok(IfStmt(c, t, None));
      }
      ok := cur.Consume("while");
      if ok {
        var _ :- cur.Expect("(");
        var c :- ParseExpr();
        var _ :- cur.Expect(")");
        var body :- ParseStmt();
        return Ok(WhileStmt(c, body));
      }
      ok := cur.Consume("for");
      if ok {
        var _ :- cur.Expect("(");
        var init :- ParseForClause(";");
        var test :- ParseForClause(";");
        var inc :- ParseForClause(")");
        var body :- ParseStmt();
        return Ok(ForStmt(init, test, inc, body));
      }
      ok := cur.Consume("{");
      if ok {
        var body :- ParseBlockBody();
        return Ok(Block(body));
      }
      if IsOp(cur.rest, "int") {
        r := ParseDeclaration();
        return;
      }
      var e :- ParseExpr();
      var _ :- cur.Expect(";");
      return Ok(ExprStmt(e));
    }

    /** One clause of a `for` header: `if (!consume(closer)) { e = expr(); expect(closer); }`. */
    method ParseForClause(closer: string) returns (r: Result<Option<Expr>>)
      modifies cur
      ensures Agrees(r, cur.rest, ForClause(old(cur.rest), Scope(), closer))
    {
      var ok := cur.Consume(closer);
      if ok {
        return Ok(None);
      }
      var e :- ParseExpr();
      var _ :- cur.Expect(closer);
      return Ok(Some(e));
    }

    /** The `while (!consume("}"))` loop that collects a block's statements. */
    method ParseBlockBody() returns (r: Result<seq<Stmt>>)
      modifies this, cur
      ensures AgreesIn(r, cur.rest, Scope(), Statements([], old(cur.rest), old(Scope())))
      decreases |cur.rest|, 3
    {
      ghost var ts, sc := cur.rest, Scope();
      var stmts: seq<Stmt> := [];
      while true
        invariant Statements(stmts, cur.rest, Scope()) == Statements([], ts, sc)
        decreases |cur.rest|
      {
        var ok := cur.Consume("}");
        if ok {
          return Ok(stmts);
        }
        var s :- ParseStmt();
        stmts := stmts + [s];
      }
    }

    /** `declaration`. */
    method ParseDeclaration() returns (r: Result<Stmt>)
      modifies this, cur
      ensures AgreesIn(r, cur.rest, Scope(), Declaration(old(cur.rest), old(Scope())))
      decreases |cur.rest|, 1
    {
      var ty :- ParseBaseType();
      var name :- cur.ExpectIdentifier();
      ty :- ParseTypeSuffix(ty);
      var v := PushVar(name, ty, true);
      var ok := cur.Consume(";");
      if ok {
        return Ok(Null);
      }
      var _ :- cur.Expect("=");
      var rhs :- ParseExpr();
      var _ :- cur.Expect(";");
      return Ok(ExprStmt(Assign(VarRef(v, None), rhs, None)));
    }

    // -------------------------------------------------------------------
    // Top level

    /** `read_func_param`. */
    method ParseFuncParam() returns (r: Result<Var>)
      modifies this, cur
      ensures AgreesIn(r, cur.rest, Scope(), FuncParam(old(cur.rest), old(Scope())))
    {
      var ty :- ParseBaseType();
      var name :- cur.ExpectIdentifier();
      ty :- ParseTypeSuffix(ty);
      var v := PushVar(name, ty, true);
      return Ok(v);
    }

    /** `read_func_params`. */
    method ParseFuncParams() returns (r: Result<seq<Var>>)
      modifies this, cur
      ensures AgreesIn(r, cur.rest, Scope(), FuncParams(old(cur.rest), old(Scope())))
    {
      ghost var ts, sc := cur.rest, Scope();
      var ok := cur.Consume(")");
      if ok {
        return Ok([]);
      }
      var first :- ParseFuncParam();
      var params := [first];
      while true
        invariant ParamsTail(params, cur.rest, Scope()) == FuncParams(ts, sc)
        decreases |cur.rest|
      {
        ok := cur.Consume(")");
        if ok {
          return Ok(params);
        }
        var _ :- cur.Expect(",");
        var p :- ParseFuncParam();
        params := params + [p];
      }
    }

    /** `function`: clears `locals`, so a function sees its own parameters
        and locals and the globals declared so far. */
    method ParseFunction() returns (r: Result<Function>)
      modifies this, cur
      ensures Agrees(r, cur.rest, FunctionDef(old(cur.rest), old(globals)))
      ensures r.Ok? ==> globals == old(globals) && locals == r.value.locals
    {
      locals := [];
      var _ :- ParseBaseType();
      var name :- cur.ExpectIdentifier();
      var _ :- cur.Expect("(");
      var params :- ParseFuncParams();
      var _ :- cur.Expect("{");
      var body :- ParseBlockBody();
      return Ok(Function(name, params, body, locals, 0));
    }

    /** `global_var`. */
    method ParseGlobalVar() returns (r: Result<()>)
      modifies this, cur
      ensures match GlobalVar(old(cur.rest), old(Scope()))
              case Ok(g) => r.Ok? && cur.rest == g.0 && Scope() == g.1
              case Fail(e) => r == Fail(e)
    {
      var ty :- ParseBaseType();
      var name :- cur.ExpectIdentifier();
      ty :- ParseTypeSuffix(ty);
      var _ :- cur.Expect(";");
      var _ := PushVar(name, ty, false);
      return Ok(());
    }

    /** `is_function`: reads ahead and puts the cursor back where it was. */
    method IsFunctionAhead() returns (r: Result<bool>)
      modifies cur
      ensures r == IsFunction(old(cur.rest)) && cur.rest == old(cur.rest)
    {
      var saved := cur.rest;
      var ty := ParseBaseType();
      if ty.Fail? {
        cur.rest := saved;
        return Fail(ty.error);
      }
      var tok := cur.ConsumeIdent();
      var isFunc := false;
      if tok.Some? {
        isFunc := cur.Consume("(");
      }
      cur.rest := saved;
      return Ok(isFunc);
    }

    /** `program`: functions and global variables until the end of the tokens. */
    method ParseProgram() returns (r: Result<Program>)
      modifies this, cur
      ensures r == ParseSpec.ParseProgram(old(cur.rest))
    {
      ghost var ts := cur.rest;
      globals := [];
      var funcs: seq<Function> := [];
      while true
        invariant ProgramLoop(funcs, cur.rest, ParseSpec.Scope([], globals)) == ParseSpec.ParseProgram(ts)
        decreases |cur.rest|
      {
        var atEnd := cur.AtEnd();
        if atEnd {
          return Ok(Program(funcs, globals));
        }
        var isFunc :- IsFunctionAhead();
        if isFunc {
          var f :- ParseFunction();
          funcs := funcs + [f];
        } else {
          GlobalVarIgnoresLocals(cur.rest, locals, globals);
          var _ :- ParseGlobalVar();
        }
      }
    }
  }
}
