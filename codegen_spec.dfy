/** What codegen.c emits for a typed program, as functions from a tree to
    an instruction list. Statements take the next free label number and
    return it updated, as the global `label_count` is. */
module CodegenSpec {
  import opened Errors
  import opened Types
  import opened Ast
  import opened Asm

  /** `gen_addr`: only a variable has an address here; its slot is `offset`
      bytes below `rbp`. */
  function GenAddr(e: Expr): (r: Result<seq<Instr>>)
    ensures r.Ok? <==> e.VarRef?
    ensures r.Fail? ==> r.error == NotAVariable
  {
    if e.VarRef? then Ok([LeaLocal(e.v.offset), Push(Rax)]) else Fail(NotAVariable)
  }

  /** `load`: replaces the address on top of the stack by the value stored there. */
  const LoadCode: seq<Instr> := [Pop(Rax), Load, Push(Rax)]

  /** `store`: pops a value and an address, writes the value, pushes it back. */
  const StoreCode: seq<Instr> := [Pop(Rdi), Pop(Rax), Store, Push(Rdi)]

  /** The number of arguments a call passes: at most the six registers. */
  function CallCount(args: seq<Expr>): (k: nat)
    ensures k <= 6 && k <= |args| && (k == |args| || k == 6)
  {
    if |args| <= 6 then |args| else 6
  }

  /** `pop rdi`, `pop rsi`, ... for `k` arguments. */
  function PopArgs(k: nat): (r: seq<Instr>)
    requires k <= 6
    ensures |r| == k && forall i :: 0 <= i < k ==> r[i] == Pop(ArgRegs[i])
  {
    seq(k, i requires 0 <= i < k => Pop(ArgRegs[i]))
  }

  /** The expression cases of `gen`. Address-of, dereference and a left-over
      `sizeof` have no case: `gen` generates their operand and then reaches
      the absent right operand. */
  function GenExpr(e: Expr): Result<seq<Instr>>
    decreases e, 1
  {
    match e
    case Num(v, _) => Ok([PushImm(v)])
    case VarRef(_, _) =>
      var a :- GenAddr(e);
      Ok(a + LoadCode)
    case Assign(l, r, _) =>
      var a :- GenAddr(l);
      var c :- GenExpr(r);
      Ok(a + c + StoreCode)
    case Binary(op, a, b, _) =>
      var ca :- GenExpr(a);
      var cb :- GenExpr(b);
      Ok(ca + cb + OperateCode(op))
    case Call(name, args, _, _) =>
      var k := CallCount(args);
      var c :- GenArgs(args, k);
      Ok(c + PopArgs(k) + [MovRaxZero, CallF(name, k), Push(Rax)])
    case Addr(a, _) =>
      var c :- GenExpr(a);
      Fail(MissingOperand)
    case Deref(a, _) =>
      var c :- GenExpr(a);
      Fail(MissingOperand)
    case SizeOf(a, _) =>
      var c :- GenExpr(a);
      Fail(MissingOperand)
  }

  /** The `for (i = count - 1; i >= 0; i--) gen(args[i])` loop: the first `k`
      arguments, last one first. */
  function GenArgs(args: seq<Expr>, k: nat): Result<seq<Instr>>
    requires k <= |args|
    decreases args, 0, k
  {
    if k == 0 then Ok([])
    else
      var c :- GenExpr(args[k - 1]);
      var rest :- GenArgs(args, k - 1);
      Ok(c + rest)
  }

  /** The test-and-branch after a condition: `pop rax`, `cmp rax, 0`, `je`. */
  function Branch(target: Label): seq<Instr> {
    [Pop(Rax), CmpRaxZero, Je(target)]
  }

  /** Code for an optional `for` clause. The condition is consumed by its
      branch; the initialiser and the increment are followed by `add rsp, 8`
      so that their values do not stay on the stack (see `ForAsWritten`). */
  function GenClause(e: Option<Expr>, after: seq<Instr>): Result<seq<Instr>> {
    match e
    case None => Ok([])
    case Some(x) =>
      var c :- GenExpr(x);
      Ok(c + after)
  }

  /** The statement cases of `gen`, from label number `n` on; the result
      holds the code and the next free label number. Each `if`, `while` and
      `for` takes the two numbers `n` and `n + 1` before its parts are
      generated. */
  function GenStmt(s: Stmt, fname: string, n: nat): Result<(seq<Instr>, nat)>
    decreases s, 1
  {
    match s
    case ExprStmt(e) =>
      var c :- GenExpr(e);
      Ok((c + [Discard], n))
    case ReturnStmt(e) =>
      var c :- GenExpr(e);
      Ok((c + [Pop(Rax), Jmp(ReturnOf(fname))], n))
    case Block(ss) => GenStmts(ss, fname, n)
    case IfStmt(cond, t, els) =>
      var cc :- GenExpr(cond);
      var tr :- GenStmt(t, fname, n + 2);
      if els.None? then
        Ok((cc + Branch(End(n)) + tr.0 + [Jmp(End(n)), Def(End(n))], tr.1))
      else
        var er :- GenStmt(els.value, fname, tr.1);
        Ok((cc + Branch(Else(n + 1)) + tr.0 + [Jmp(End(n)), Def(Else(n + 1))] + er.0 + [Def(End(n))], er.1))
    case WhileStmt(cond, body) =>
      var cc :- GenExpr(cond);
      var br :- GenStmt(body, fname, n + 2);
      Ok(([Def(Begin(n))] + cc + Branch(End(n + 1)) + br.0 + [Jmp(Begin(n)), Def(End(n + 1))], br.1))
    case ForStmt(init, test, inc, body) =>
      var ic :- GenClause(init, [Discard]);
      var tc :- GenClause(test, Branch(End(n + 1)));
      var br :- GenStmt(body, fname, n + 2);
      var nc :- GenClause(inc, [Discard]);
      Ok((ic + [Def(Begin(n))] + tc + br.0 + nc + [Jmp(Begin(n)), Def(End(n + 1))], br.1))
    case Null => Fail(MissingOperand)
  }

  /** A statement list, in order, threading the label counter. */
  function GenStmts(ss: seq<Stmt>, fname: string, n: nat): Result<(seq<Instr>, nat)>
    decreases ss, 0
  {
    if ss == [] then Ok(([], n))
    else
      var r :- GenStmt(ss[0], fname, n);
      var rest :- GenStmts(ss[1..], fname, r.1);
      Ok((r.0 + rest.0, rest.1))
  }

  /** The prologue: `.global`, the function's label, `push rbp`,
      `mov rbp, rsp`, `sub rsp, stack_size`. */
  function Prologue(f: Function): seq<Instr> {
    [Global(f.name), FuncLabel(f.name), Push(Rbp), MovRbpRsp, SubRsp(f.stackSize)]
  }

  /** The parameter copies: parameter `i` from argument register `i`. */
  function ParamCopies(params: seq<Var>): (r: seq<Instr>)
    requires |params| <= 6
    ensures |r| == |params| && forall i :: 0 <= i < |params| ==> r[i] == StoreParam(params[i].offset, ArgRegs[i])
  {
    seq(|params|, i requires 0 <= i < |params| => StoreParam(params[i].offset, ArgRegs[i]))
  }

  /** The epilogue, entered at `.Lreturn<name>`. */
  function Epilogue(f: Function): seq<Instr> {
    [Def(ReturnOf(f.name)), MovRspRbp, Pop(Rbp), Ret]
  }

  /** One function of `codegen`'s loop. A seventh parameter would read past
      the end of `argreg`; it is reported instead. */
  function GenFunction(f: Function, n: nat): Result<(seq<Instr>, nat)> {
    if |f.params| > 6 then Fail(TooManyParams)
    else
      var br :- GenStmts(f.body, f.name, n);
      Ok((Prologue(f) + ParamCopies(f.params) + br.0 + Epilogue(f), br.1))
  }

  /** The functions of `fs` in order, the label counter starting at `n`. */
  function GenFunctions(fs: seq<Function>, n: nat): Result<(seq<Instr>, nat)>
    decreases |fs|
  {
    if fs == [] then Ok(([], n))
    else
      var r :- GenFunction(fs[0], n);
      var rest :- GenFunctions(fs[1..], r.1);
      Ok((r.0 + rest.0, rest.1))
  }

  /** `codegen`: the syntax directive, then every function. */
  function GenProgram(fs: seq<Function>, n: nat): Result<(seq<Instr>, nat)> {
    var r :- GenFunctions(fs, n);
    Ok(([IntelSyntax] + r.0, r.1))
  }
}
