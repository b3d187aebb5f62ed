/** The recursive-descent parser of parse.c as functions of the remaining
    token list. Each function returns what its C counterpart returns and the
    tokens left after it; failures are the `error_at`/`error_tok` calls. The
    symbol tables `locals` and `globals` travel as a `Scope` value. */
module ParseSpec {
  import opened Errors
  import opened Types
  import opened Ast
  import opened Tokenize

  /** The two variable lists; index 0 is the most recently pushed entry. */
  datatype Scope = Scope(locals: seq<Var>, globals: seq<Var>)

  /** The first variable of `vs` called `name`, scanning from the head. */
  function Lookup(vs: seq<Var>, name: string): (r: Option<Var>)
    ensures r.Some? ==> exists i :: 0 <= i < |vs| && vs[i] == r.value && r.value.name == name
                                   && forall j :: 0 <= j < i ==> vs[j].name != name
    ensures r.None? ==> forall i :: 0 <= i < |vs| ==> vs[i].name != name
    decreases |vs|
  {
    if vs == [] then None
    else if vs[0].name == name then Some(vs[0])
    else
      var r := Lookup(vs[1..], name);
      if r.Some? then
        assert forall j :: 1 <= j < |vs| ==> vs[j] == vs[1..][j - 1];
        r
      else r
  }

  /** `find_var`: a local of that name if there is one, else a global, else nothing. */
  function FindVar(sc: Scope, name: string): Option<Var> {
    match Lookup(sc.locals, name)
    case Some(v) => Some(v)
    case None => Lookup(sc.globals, name)
  }

  /** `push_var`: a new variable, prepended to the local or the global list. */
  function PushVar(sc: Scope, name: string, ty: Type, isLocal: bool): (Var, Scope) {
    var v := Var(name, ty, isLocal, 0);
    if isLocal then (v, Scope([v] + sc.locals, sc.globals))
    else (v, Scope(sc.locals, [v] + sc.globals))
  }

  // ---------------------------------------------------------------------
  // Types in declarations

  /** The `while (consume("*")) ty = pointer_to(ty)` loop of `basetype`. */
  function Stars(t: Type, ts: seq<Token>): (r: (Type, seq<Token>))
    ensures |r.1| <= |ts|
    decreases |ts|
  {
    if Consumes(ts, "*") then Stars(Ptr(t), ts[1..]) else (t, ts)
  }

  /** `basetype`: `int` followed by any number of `*`. */
  function BaseType(ts: seq<Token>): (r: Result<(Type, seq<Token>)>)
    ensures r.Ok? ==> |r.value.1| < |ts|
  {
    var rest :- ExpectOp(ts, "int");
    Ok(Stars(Int, rest))
  }

  /** `read_type_suffix`: each `[n]` wraps the type the rest of the suffix builds. */
  function TypeSuffix(base: Type, ts: seq<Token>): (r: Result<(Type, seq<Token>)>)
    ensures r.Ok? ==> |r.value.1| <= |ts|
    decreases |ts|
  {
    if Consumes(ts, "[") then
      var nr :- ExpectNumber(ts[1..]);
      var rest :- ExpectOp(nr.1, "]");
      var tr :- TypeSuffix(base, rest);
      Ok((Array(tr.0, nr.0), tr.1))
    else Ok((base, ts))
  }

  // ---------------------------------------------------------------------
  // Expressions. Each head function consumes at least one token on success;
  // the `...Tail` functions are the `for (;;)` loops that extend a node.

  /** `expr = assign`. */
  function Expression(ts: seq<Token>, sc: Scope): (r: Result<(Expr, seq<Token>)>)
    ensures r.Ok? ==> |r.value.1| < |ts|
    decreases |ts|, 9
  {
    AssignExpr(ts, sc)
  }

  /** `assign = equality ("=" assign)?`: right-associative. */
  function AssignExpr(ts: seq<Token>, sc: Scope): (r: Result<(Expr, seq<Token>)>)
    ensures r.Ok? ==> |r.value.1| < |ts|
    decreases |ts|, 8
  {
    var lr :- Equality(ts, sc);
    if Consumes(lr.1, "=") then
      var rr :- AssignExpr(lr.1[1..], sc);
      Ok((Assign(lr.0, rr.0, None), rr.1))
    else Ok(lr)
  }

  /** `equality = relational ("==" relational | "!=" relational)*`. */
  function Equality(ts: seq<Token>, sc: Scope): (r: Result<(Expr, seq<Token>)>)
    ensures r.Ok? ==> |r.value.1| < |ts|
    decreases |ts|, 7
  {
    var lr :- Relational(ts, sc);
    EqualityTail(lr.0, lr.1, sc)
  }

  function EqualityTail(node: Expr, ts: seq<Token>, sc: Scope): (r: Result<(Expr, seq<Token>)>)
    ensures r.Ok? ==> |r.value.1| <= |ts|
    decreases |ts|, 0
  {
    if Consumes(ts, "==") then
      var rr :- Relational(ts[1..], sc);
      EqualityTail(Bin(Eq, node, rr.0), rr.1, sc)
    else if Consumes(ts, "!=") then
      var rr :- Relational(ts[1..], sc);
      EqualityTail(Bin(Ne, node, rr.0), rr.1, sc)
    else Ok((node, ts))
  }

  /** `relational = add ("<" add | "<=" add | ">" add | ">=" add)*`; `>` and
      `>=` build `Lt`/`Le` with the operands swapped. */
  function Relational(ts: seq<Token>, sc: Scope): (r: Result<(Expr, seq<Token>)>)
    ensures r.Ok? ==> |r.value.1| < |ts|
    decreases |ts|, 6
  {
    var lr :- AddExpr(ts, sc);
    RelationalTail(lr.0, lr.1, sc)
  }

  function RelationalTail(node: Expr, ts: seq<Token>, sc: Scope): (r: Result<(Expr, seq<Token>)>)
    ensures r.Ok? ==> |r.value.1| <= |ts|
    decreases |ts|, 0
  {
    if Consumes(ts, "<") then
      var rr :- AddExpr(ts[1..], sc);
      RelationalTail(Bin(Lt, node, rr.0), rr.1, sc)
    else if Consumes(ts, "<=") then
      var rr :- AddExpr(ts[1..], sc);
      RelationalTail(Bin(Le, node, rr.0), rr.1, sc)
    else if Consumes(ts, ">") then
      var rr :- AddExpr(ts[1..], sc);
      RelationalTail(Bin(Lt, rr.0, node), rr.1, sc)
    else if Consumes(ts, ">=") then
      var rr :- AddExpr(ts[1..], sc);
      RelationalTail(Bin(Le, rr.0, node), rr.1, sc)
    else Ok((node, ts))
  }

  /** `add = mul ("+" mul | "-" mul)*`. */
  function AddExpr(ts: seq<Token>, sc: Scope): (r: Result<(Expr, seq<Token>)>)
    ensures r.Ok? ==> |r.value.1| < |ts|
    decreases |ts|, 5
  {
    var lr :- MulExpr(ts, sc);
    AddTail(lr.0, lr.1, sc)
  }

  function AddTail(node: Expr, ts: seq<Token>, sc: Scope): (r: Result<(Expr, seq<Token>)>)
    ensures r.Ok? ==> |r.value.1| <= |ts|
    decreases |ts|, 0
  {
    if Consumes(ts, "+") then
      var rr :- MulExpr(ts[1..], sc);
      AddTail(Bin(Add, node, rr.0), rr.1, sc)
    else if Consumes(ts, "-") then
      var rr :- MulExpr(ts[1..], sc);
      AddTail(Bin(Sub, node, rr.0), rr.1, sc)
    else Ok((node, ts))
  }

  /** `mul = unary ("*" unary | "/" unary)*`. */
  function MulExpr(ts: seq<Token>, sc: Scope): (r: Result<(Expr, seq<Token>)>)
    ensures r.Ok? ==> |r.value.1| < |ts|
    decreases |ts|, 4
  {
    var lr :- UnaryExpr(ts, sc);
    MulTail(lr.0, lr.1, sc)
  }

  function MulTail(node: Expr, ts: seq<Token>, sc: Scope): (r: Result<(Expr, seq<Token>)>)
    ensures r.Ok? ==> |r.value.1| <= |ts|
    decreases |ts|, 0
  {
    if Consumes(ts, "*") then
      var rr :- UnaryExpr(ts[1..], sc);
      MulTail(Bin(Mul, node, rr.0), rr.1, sc)
    else if Consumes(ts, "/") then
      var rr :- UnaryExpr(ts[1..], sc);
      MulTail(Bin(Div, node, rr.0), rr.1, sc)
    else Ok((node, ts))
  }

  /** `unary`: `sizeof`, `+`, `-` (as `0 - x`), `&` and `*` prefixes, else a postfix. */
  function UnaryExpr(ts: seq<Token>, sc: Scope): (r: Result<(Expr, seq<Token>)>)
    ensures r.Ok? ==> |r.value.1| < |ts|
    decreases |ts|, 3
  {
    if Consumes(ts, "sizeof") then
      var er :- UnaryExpr(ts[1..], sc);
      Ok((SizeOf(er.0, None), er.1))
    else if Consumes(ts, "+") then
      UnaryExpr(ts[1..], sc)
    else if Consumes(ts, "-") then
      var er :- UnaryExpr(ts[1..], sc);
      Ok((Bin(Sub, N(0), er.0), er.1))
    else if Consumes(ts, "&") then
      var er :- UnaryExpr(ts[1..], sc);
      Ok((Addr(er.0, None), er.1))
    else if Consumes(ts, "*") then
      var er :- UnaryExpr(ts[1..], sc);
      Ok((Deref(er.0, None), er.1))
    else PostfixExpr(ts, sc)
  }

  /** `postfix = primary ("[" expr "]")*`; `a[i]` becomes `*(a + i)`. */
  function PostfixExpr(ts: seq<Token>, sc: Scope): (r: Result<(Expr, seq<Token>)>)
    ensures r.Ok? ==> |r.value.1| < |ts|
    decreases |ts|, 2
  {
    var pr :- Primary(ts, sc);
    PostfixTail(pr.0, pr.1, sc)
  }

  function PostfixTail(node: Expr, ts: seq<Token>, sc: Scope): (r: Result<(Expr, seq<Token>)>)
    ensures r.Ok? ==> |r.value.1| <= |ts|
    decreases |ts|, 0
  {
    if Consumes(ts, "[") then
      var ir :- Expression(ts[1..], sc);
      var rest :- ExpectOp(ir.1, "]");
      PostfixTail(Deref(Bin(Add, node, ir.0), None), rest, sc)
    else Ok((node, ts))
  }

  /** `primary`: a parenthesised expression, a call, a variable or a number. */
  function Primary(ts: seq<Token>, sc: Scope): (r: Result<(Expr, seq<Token>)>)
    ensures r.Ok? ==> |r.value.1| < |ts|
    decreases |ts|, 1
  {
    if Consumes(ts, "(") then
      var er :- Expression(ts[1..], sc);
      var rest :- ExpectOp(er.1, ")");
      Ok((er.0, rest))
    else if |ts| > 0 && ts[0].kind == Ident then
      var tok := ts[0];
      if Consumes(ts[1..], "(") then
        var after := ts[2..];
        if Consumes(after, ")") then Ok((Call(tok.text, [], 0, None), after[1..]))
        else
          var ar :- CallArgs(after, sc);
          Ok((Call(tok.text, ar.0, |ar.0|, None), ar.1))
      else
        match FindVar(sc, tok.text)
        case None => Fail(UndefinedVariable(tok.pos, tok.text))
        case Some(v) => Ok((VarRef(v, None), ts[1..]))
    else
      var nr :- ExpectNumber(ts);
      Ok((N(nr.0), nr.1))
  }

  /** The argument list of a call after its `(`: `expr ("," expr)* ")"`. */
  function CallArgs(ts: seq<Token>, sc: Scope): (r: Result<(seq<Expr>, seq<Token>)>)
    ensures r.Ok? ==> |r.value.1| < |ts| && |r.value.0| >= 1
    decreases |ts|, 10
  {
    var er :- Expression(ts, sc);
    ArgsTail([er.0], er.1, sc)
  }

  function ArgsTail(args: seq<Expr>, ts: seq<Token>, sc: Scope): (r: Result<(seq<Expr>, seq<Token>)>)
    ensures r.Ok? ==> |r.value.1| < |ts| && |r.value.0| >= |args|
    decreases |ts|, 0
  {
    if Consumes(ts, ",") then
      var er :- Expression(ts[1..], sc);
      ArgsTail(args + [er.0], er.1, sc)
    else
      var rest :- ExpectOp(ts, ")");
      Ok((args, rest))
  }

  // ---------------------------------------------------------------------
  // Statements. Declarations push locals, so the scope is threaded through.

  datatype Parsed<T> = Parsed(node: T, rest: seq<Token>, scope: Scope)

  /** One `for` clause: nothing if `closer` comes first, else an expression and `closer`. */
  function ForClause(ts: seq<Token>, sc: Scope, closer: string): (r: Result<(Option<Expr>, seq<Token>)>)
    ensures r.Ok? ==> |r.value.1| < |ts|
  {
    if Consumes(ts, closer) then Ok((None, ts[1..]))
    else
      var er :- Expression(ts, sc);
      var rest :- ExpectOp(er.1, closer);
      Ok((Some(er.0), rest))
  }

  /** `stmt`. */
  function Statement(ts: seq<Token>, sc: Scope): (r: Result<Parsed<Stmt>>)
    ensures r.Ok? ==> |r.value.rest| < |ts| && r.value.scope.globals == sc.globals
    decreases |ts|, 2
  {
    if Consumes(ts, "return") then
      var er :- Expression(ts[1..], sc);
      var rest :- ExpectOp(er.1, ";");
      Ok(Parsed(ReturnStmt(er.0), rest, sc))
    else if Consumes(ts, "if") then
      var r0 :- ExpectOp(ts[1..], "(");
      var cr :- Expression(r0, sc);
      var r1 :- ExpectOp(cr.1, ")");
      var tp :- Statement(r1, sc);
      if Consumes(tp.rest, "else") then
        var ep :- Statement(tp.rest[1..], tp.scope);
        Ok(Parsed(IfStmt(cr.0, tp.node, Some(ep.node)), ep.rest, ep.scope))
      else Ok(Parsed(IfStmt(cr.0, tp.node, None), tp.rest, tp.scope))
    else if Consumes(ts, "while") then
      var r0 :- ExpectOp(ts[1..], "(");
      var cr :- Expression(r0, sc);
      var r1 :- ExpectOp(cr.1, ")");
      var bp :- Statement(r1, sc);
      Ok(Parsed(WhileStmt(cr.0, bp.node), bp.rest, bp.scope))
    else if Consumes(ts, "for") then
      var r0 :- ExpectOp(ts[1..], "(");
      var ir :- ForClause(r0, sc, ";");
      var cr :- ForClause(ir.1, sc, ";");
      var nr :- ForClause(cr.1, sc, ")");
      var bp :- Statement(nr.1, sc);
      Ok(Parsed(ForStmt(ir.0, cr.0, nr.0, bp.node), bp.rest, bp.scope))
    else if Consumes(ts, "{") then
      var bp :- Statements([], ts[1..], sc);
      Ok(Parsed(Block(bp.node), bp.rest, bp.scope))
    else if IsOp(ts, "int") then
      Declaration(ts, sc)
    else
      var er :- Expression(ts, sc);
      var rest :- ExpectOp(er.1, ";");
      Ok(Parsed(ExprStmt(er.0), rest, sc))
  }

  /** The `while (!consume("}")) cur = cur->next = stmt()` loop, appending to `acc`. */
  function Statements(acc: seq<Stmt>, ts: seq<Token>, sc: Scope): (r: Result<Parsed<seq<Stmt>>>)
    ensures r.Ok? ==> |r.value.rest| < |ts| && r.value.scope.globals == sc.globals
    decreases |ts|, 3
  {
    if Consumes(ts, "}") then Ok(Parsed(acc, ts[1..], sc))
    else
      var sp :- Statement(ts, sc);
      Statements(acc + [sp.node], sp.rest, sp.scope)
  }

  /** `declaration = basetype ident ("[" num "]")* ("=" expr)? ";"`: pushes a
      local, then yields `Null` or the assignment of the initialiser. */
  function Declaration(ts: seq<Token>, sc: Scope): (r: Result<Parsed<Stmt>>)
    ensures r.Ok? ==> |r.value.rest| < |ts| && r.value.scope.globals == sc.globals
    decreases |ts|, 1
  {
    var br :- BaseType(ts);
    var nr :- ExpectIdent(br.1);
    var tr :- TypeSuffix(br.0, nr.1);
    var (v, sc1) := PushVar(sc, nr.0, tr.0, true);
    if Consumes(tr.1, ";") then Ok(Parsed(Null, tr.1[1..], sc1))
    else
      var r0 :- ExpectOp(tr.1, "=");
      var er :- Expression(r0, sc1);
      var rest :- ExpectOp(er.1, ";");
      Ok(Parsed(ExprStmt(Assign(VarRef(v, None), er.0, None)), rest, sc1))
  }

  // ---------------------------------------------------------------------
  // Top level

  /** `read_func_param`: a type, a name and a suffix; pushes the parameter as a local. */
  function FuncParam(ts: seq<Token>, sc: Scope): (r: Result<Parsed<Var>>)
    ensures r.Ok? ==> |r.value.rest| < |ts| && r.value.scope.globals == sc.globals
  {
    var br :- BaseType(ts);
    var nr :- ExpectIdent(br.1);
    var tr :- TypeSuffix(br.0, nr.1);
    var (v, sc1) := PushVar(sc, nr.0, tr.0, true);
    Ok(Parsed(v, tr.1, sc1))
  }

  /** `read_func_params`, after the `(`: nothing if `)` follows, else parameters separated by `,`. */
  function FuncParams(ts: seq<Token>, sc: Scope): (r: Result<Parsed<seq<Var>>>)
    ensures r.Ok? ==> |r.value.rest| < |ts| && r.value.scope.globals == sc.globals
  {
    if Consumes(ts, ")") then Ok(Parsed([], ts[1..], sc))
    else
      var pp :- FuncParam(ts, sc);
      ParamsTail([pp.node], pp.rest, pp.scope)
  }

  function ParamsTail(acc: seq<Var>, ts: seq<Token>, sc: Scope): (r: Result<Parsed<seq<Var>>>)
    ensures r.Ok? ==> |r.value.rest| < |ts| && r.value.scope.globals == sc.globals
    decreases |ts|
  {
    if Consumes(ts, ")") then Ok(Parsed(acc, ts[1..], sc))
    else
      var r0 :- ExpectOp(ts, ",");
      var pp :- FuncParam(r0, sc);
      ParamsTail(acc + [pp.node], pp.rest, pp.scope)
  }

  /** `function`: starts with no locals; the locals it ends with, parameters
      included, are the function's. The frame size is left 0. */
  function FunctionDef(ts: seq<Token>, globals: seq<Var>): (r: Result<(Function, seq<Token>)>)
    ensures r.Ok? ==> |r.value.1| < |ts|
  {
    var br :- BaseType(ts);
    var nr :- ExpectIdent(br.1);
    var r0 :- ExpectOp(nr.1, "(");
    var pp :- FuncParams(r0, Scope([], globals));
    var r1 :- ExpectOp(pp.rest, "{");
    var bp :- Statements([], r1, pp.scope);
    Ok((Function(nr.0, pp.node, bp.node, bp.scope.locals, 0), bp.rest))
  }

  /** `global_var`: a declaration ending in `;`, pushed onto the globals. */
  function GlobalVar(ts: seq<Token>, sc: Scope): (r: Result<(seq<Token>, Scope)>)
    ensures r.Ok? ==> |r.value.0| < |ts|
  {
    var br :- BaseType(ts);
    var nr :- ExpectIdent(br.1);
    var tr :- TypeSuffix(br.0, nr.1);
    var rest :- ExpectOp(tr.1, ";");
    Ok((rest, PushVar(sc, nr.0, tr.0, false).1))
  }

  /** A global declaration neither reads nor changes the locals. */
  lemma GlobalVarIgnoresLocals(ts: seq<Token>, locals: seq<Var>, globals: seq<Var>)
    ensures GlobalVar(ts, Scope(locals, globals)) ==
            match GlobalVar(ts, Scope([], globals))
            case Ok(g) => Ok((g.0, Scope(locals, g.1.globals)))
            case Fail(e) => Fail(e)
  {
  }

  /** `is_function`: a base type, an identifier and `(` come next. It only
      looks ahead, so it returns no cursor; a missing `int` is still an error. */
  function IsFunction(ts: seq<Token>): (r: Result<bool>) {
    var br :- BaseType(ts);
    var rest := br.1;
    Ok(|rest| > 0 && rest[0].kind == Ident && Consumes(rest[1..], "("))
  }

  /** `program = (function | global_var)*`, from the function list `funcs`
      and the global scope `sc` built so far. */
  function ProgramLoop(funcs: seq<Function>, ts: seq<Token>, sc: Scope): Result<Program>
    decreases |ts|
  {
    if AtEof(ts) then Ok(Program(funcs, sc.globals))
    else
      var isFunc :- IsFunction(ts);
      if isFunc then
        var fr :- FunctionDef(ts, sc.globals);
        ProgramLoop(funcs + [fr.0], fr.1, sc)
      else
        var gr :- GlobalVar(ts, sc);
        ProgramLoop(funcs, gr.0, gr.1)
  }

  /** `program`: starts with no globals. */
  function ParseProgram(ts: seq<Token>): Result<Program> {
    ProgramLoop([], ts, Scope([], []))
  }
}
