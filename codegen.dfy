/** codegen.c as it runs: `gen` appends instructions to the output one at a
    time, numbers labels from the global `label_count`, and reads the global
    `funcname` for `return`. Every routine is proved to append exactly the
    code that `CodegenSpec` computes, to leave the counter where it leaves
    it, and to report the same error. */
module Codegen {
  import opened Errors
  import opened Ast
  import opened Asm
  import opened CodegenSpec

  /** A statement routine's outcome: with code `spec`, the output grew from
      `out0` to `out` by exactly that code and the counter reads its new
      value; otherwise the same error. */
  predicate Emitted(r: Result<()>, out0: seq<Instr>, out: seq<Instr>, count: nat, spec: Result<(seq<Instr>, nat)>) {
    match spec
    case Ok(res) => r == Ok(()) && out == out0 + res.0 && count == res.1
    case Fail(e) => r == Fail(e)
  }

  /** An expression routine's outcome, in the same sense. */
  predicate EmittedExpr(r: Result<()>, out0: seq<Instr>, out: seq<Instr>, spec: Result<seq<Instr>>) {
    match spec
    case Ok(code) => r == Ok(()) && out == out0 + code
    case Fail(e) => r == Fail(e)
  }

  // ---------------------------------------------------------------------
  // How the loops split the specification

  /** The code of arguments `k - 1` down to `i`, in that order. */
  ghost function ArgsFrom(args: seq<Expr>, k: nat, i: nat): seq<Instr>
    requires i <= k <= |args| && forall j :: i <= j < k ==> GenExpr(args[j]).Ok?
    decreases k - i
  {
    if i == k then [] else ArgsFrom(args, k, i + 1) + GenExpr(args[i]).value
  }

  /** The first `k` arguments' code is that of arguments `k - 1` down to
      `i`, then that of the first `i`. */
  lemma {:induction false} ArgsSplit(args: seq<Expr>, k: nat, i: nat)
    requires i <= k <= |args| && forall j :: i <= j < k ==> GenExpr(args[j]).Ok?
    ensures GenArgs(args, k) == match GenArgs(args, i)
                                case Ok(c) => Ok(ArgsFrom(args, k, i) + c)
                                case Fail(e) => Fail(e)
    decreases k - i
  {
    if i < k {
      ArgsSplit(args, k, i + 1);
      match GenArgs(args, i)
      case Ok(c) =>
        assert GenArgs(args, i + 1) == Ok(GenExpr(args[i]).value + c);
        assert ArgsFrom(args, k, i + 1) + (GenExpr(args[i]).value + c) == ArgsFrom(args, k, i) + c;
      case Fail(_) =>
    } else {
      match GenArgs(args, i)
      case Ok(c) => assert [] + c == c;
      case Fail(_) =>
    }
  }

  /** The first argument (counting down from `k - 1`) whose code fails
      decides the failure of all `k`. */
  lemma ArgsFailAt(args: seq<Expr>, k: nat, i: nat)
    requires i < k <= |args| && forall j :: i < j < k ==> GenExpr(args[j]).Ok?
    requires GenExpr(args[i]).Fail?
    ensures GenArgs(args, k) == Fail(GenExpr(args[i]).error)
  {
    ArgsSplit(args, k, i + 1);
  }

  /** When every argument has code, the code of all `k` is `ArgsFrom(args, k, 0)`. */
  lemma ArgsAllOk(args: seq<Expr>, k: nat)
    requires k <= |args| && forall j :: 0 <= j < k ==> GenExpr(args[j]).Ok?
    ensures GenArgs(args, k) == Ok(ArgsFrom(args, k, 0))
  {
    ArgsSplit(args, k, 0);
    assert ArgsFrom(args, k, 0) + [] == ArgsFrom(args, k, 0);
  }

  /** The code emitted so far, followed by what the rest of a list gives. */
  function Then(acc: seq<Instr>, rest: Result<(seq<Instr>, nat)>): Result<(seq<Instr>, nat)> {
    match rest
    case Fail(e) => Fail(e)
    case Ok(b) => Ok((acc + b.0, b.1))
  }

  lemma ThenStart(r: Result<(seq<Instr>, nat)>)
    ensures Then([], r) == r
  {
    match r
    case Fail(_) =>
    case Ok(b) => assert [] + b.0 == b.0;
  }

  lemma ThenEnd(acc: seq<Instr>, n: nat)
    ensures Then(acc, Ok(([], n))) == Ok((acc, n))
  {
    assert acc + [] == acc;
  }

  /** The statements from `k` on: statement `k`'s code is emitted next; if
      it fails, so does the whole list. */
  lemma StmtsThen(ss: seq<Stmt>, k: nat, acc: seq<Instr>, fname: string, n: nat)
    requires k < |ss|
    ensures Then(acc, GenStmts(ss[k..], fname, n)) ==
            match GenStmt(ss[k], fname, n)
            case Fail(e) => Fail(e)
            case Ok(h) => Then(acc + h.0, GenStmts(ss[k + 1..], fname, h.1))
  {
    assert ss[k..][0] == ss[k] && ss[k..][1..] == ss[k + 1..];
    match GenStmt(ss[k], fname, n)
    case Fail(_) =>
    case Ok(h) =>
      match GenStmts(ss[k + 1..], fname, h.1)
      case Fail(_) =>
      case Ok(b) => assert acc + (h.0 + b.0) == acc + h.0 + b.0;
  }

  /** The functions from `i` on, in the same sense. */
  lemma FunctionsThen(fs: seq<Function>, i: nat, acc: seq<Instr>, n: nat)
    requires i < |fs|
    ensures Then(acc, GenFunctions(fs[i..], n)) ==
            match GenFunction(fs[i], n)
            case Fail(e) => Fail(e)
            case Ok(h) => Then(acc + h.0, GenFunctions(fs[i + 1..], h.1))
  {
    assert fs[i..][0] == fs[i] && fs[i..][1..] == fs[i + 1..];
    match GenFunction(fs[i], n)
    case Fail(_) =>
    case Ok(h) =>
      match GenFunctions(fs[i + 1..], h.1)
      case Fail(_) =>
      case Ok(b) => assert acc + (h.0 + b.0) == acc + h.0 + b.0;
  }

  /** The two arms of an `if` with label number `n`: the `then` part, the
      jump over the `else` part, and the `else` part when there is one. */
  function IfArms(s: Stmt, fname: string, n: nat): Result<(seq<Instr>, nat)>
    requires s.IfStmt?
  {
    var tr :- GenStmt(s.thenS, fname, n + 2);
    if s.elseS.None? then
      Ok((tr.0 + [Jmp(End(n)), Def(End(n))], tr.1))
    else
      var er :- GenStmt(s.elseS.value, fname, tr.1);
      Ok((tr.0 + [Jmp(End(n)), Def(Else(n + 1))] + er.0 + [Def(End(n))], er.1))
  }

  /** An `if` is its condition, the branch to the label after the `then`
      part, and the arms. */
  lemma IfSplit(s: Stmt, fname: string, n: nat)
    requires s.IfStmt?
    ensures GenStmt(s, fname, n) ==
            match GenExpr(s.cond)
            case Fail(e) => Fail(e)
            case Ok(cc) => Then(cc + Branch(if s.elseS.Some? then Else(n + 1) else End(n)), IfArms(s, fname, n))
  {
    match GenExpr(s.cond)
    case Fail(_) =>
    case Ok(cc) =>
      var b := Branch(if s.elseS.Some? then Else(n + 1) else End(n));
      match GenStmt(s.thenS, fname, n + 2)
      case Fail(_) =>
      case Ok(tr) =>
        if s.elseS.None? {
          assert cc + b + tr.0 + [Jmp(End(n)), Def(End(n))] == (cc + b) + (tr.0 + [Jmp(End(n)), Def(End(n))]);
        } else {
          match GenStmt(s.elseS.value, fname, tr.1)
          case Fail(_) =>
          case Ok(er) =>
            assert cc + b + tr.0 + [Jmp(End(n)), Def(Else(n + 1))] + er.0 + [Def(End(n))]
                == (cc + b) + (tr.0 + [Jmp(End(n)), Def(Else(n + 1))] + er.0 + [Def(End(n))]);
        }
  }

  /** A `for` loop with label numbers `n` and `n + 1`, from its test on. */
  function ForLoop(s: Stmt, fname: string, n: nat): Result<(seq<Instr>, nat)>
    requires s.ForStmt?
  {
    var tc :- GenClause(s.test, Branch(End(n + 1)));
    Then(tc, ForBody(s, fname, n))
  }

  /** The rest of that loop: the body, the increment and the jump back. */
  function ForBody(s: Stmt, fname: string, n: nat): Result<(seq<Instr>, nat)>
    requires s.ForStmt?
  {
    var br :- GenStmt(s.body, fname, n + 2);
    var nc :- GenClause(s.inc, [Discard]);
    Ok((br.0 + nc + [Jmp(Begin(n)), Def(End(n + 1))], br.1))
  }

  lemma Regroup(a: seq<Instr>, t: seq<Instr>, b: seq<Instr>, c: seq<Instr>, j: seq<Instr>)
    ensures a + t + b + c + j == a + (t + (b + c + j))
  {
  }

  /** A `for` is its initialiser, the loop's label, and the loop. */
  lemma ForSplit(s: Stmt, fname: string, n: nat)
    requires s.ForStmt?
    ensures GenStmt(s, fname, n) ==
            match GenClause(s.init, [Discard])
            case Fail(e) => Fail(e)
            case Ok(ic) => Then(ic + [Def(Begin(n))], ForLoop(s, fname, n))
  {
    match GenClause(s.init, [Discard])
    case Fail(_) =>
    case Ok(ic) =>
      match GenClause(s.test, Branch(End(n + 1)))
      case Fail(_) =>
      case Ok(tc) =>
        match GenStmt(s.body, fname, n + 2)
        case Fail(_) =>
        case Ok(br) =>
          match GenClause(s.inc, [Discard])
          case Fail(_) =>
          case Ok(nc) =>
            Regroup(ic + [Def(Begin(n))], tc, br.0, nc, [Jmp(Begin(n)), Def(End(n + 1))]);
  }

  // ---------------------------------------------------------------------
  // The generator

  class Generator {
    /** What has been printed so far. */
    var out: seq<Instr>
    /** `label_count`. */
    var labelCount: nat
    /** `funcname`: the function whose body is being generated. */
    var funcname: string

    constructor ()
      ensures out == [] && labelCount == 0 && funcname == ""
    {
      out := [];
      labelCount := 0;
      funcname := "";
    }

    /** `gen_addr`. */
    method GenAddr(e: Expr) returns (r: Result<()>)
      modifies this
      ensures EmittedExpr(r, old(out), out, CodegenSpec.GenAddr(e))
      ensures labelCount == old(labelCount) && funcname == old(funcname)
    {
      if !e.VarRef? {
        return Fail(NotAVariable);
      }
      out := out + [LeaLocal(e.v.offset)];
      out := out + [Push(Rax)];
      r := Ok(());
    }

    /** `load`. */
    method Load()
      modifies this
      ensures out == old(out) + LoadCode
      ensures labelCount == old(labelCount) && funcname == old(funcname)
    {
      out := out + [Pop(Rax)];
      out := out + [Asm.Load];
      out := out + [Push(Rax)];
    }

    /** `store`. */
    method Store()
      modifies this
      ensures out == old(out) + StoreCode
      ensures labelCount == old(labelCount) && funcname == old(funcname)
    {
      out := out + [Pop(Rdi)];
      out := out + [Pop(Rax)];
      out := out + [Asm.Store];
      out := out + [Push(Rdi)];
    }

    /** `gen` on an expression node. */
    method Gen(e: Expr) returns (r: Result<()>)
      modifies this
      ensures EmittedExpr(r, old(out), out, GenExpr(e))
      ensures labelCount == old(labelCount) && funcname == old(funcname)
      decreases e, 1
    {
      match e
      case Num(v, _) =>
        out := out + [PushImm(v)];
        r := Ok(());
      case VarRef(_, _) =>
        r := GenAddr(e);
        Load();
      case Assign(_, _, _) =>
        r := GenAssign(e);
      case Binary(_, _, _, _) =>
        r := GenBinary(e);
      case Call(_, _, _, _) =>
        r := GenCall(e);
      case Addr(a, _) =>
        r := Gen(a);
        if r.Ok? {
          r := Fail(MissingOperand);
        }
      case Deref(a, _) =>
        r := Gen(a);
        if r.Ok? {
          r := Fail(MissingOperand);
        }
      case SizeOf(a, _) =>
        r := Gen(a);
        if r.Ok? {
          r := Fail(MissingOperand);
        }
    }

    method GenAssign(e: Expr) returns (r: Result<()>)
      requires e.Assign?
      modifies this
      ensures EmittedExpr(r, old(out), out, GenExpr(e))
      ensures labelCount == old(labelCount) && funcname == old(funcname)
      decreases e, 0
    {
      r := GenAddr(e.lhs);
      if r.Fail? {
        return;
      }
      ghost var mid := out;
      r := Gen(e.rhs);
      if r.Fail? {
        return;
      }
      Store();
      assert out == old(out) + CodegenSpec.GenAddr(e.lhs).value + GenExpr(e.rhs).value + StoreCode;
    }

    /** The binary-node path after the `switch`: both operands, the two
        pops, the operation, the push. */
    method GenBinary(e: Expr) returns (r: Result<()>)
      requires e.Binary?
      modifies this
      ensures EmittedExpr(r, old(out), out, GenExpr(e))
      ensures labelCount == old(labelCount) && funcname == old(funcname)
      decreases e, 0
    {
      r := Gen(e.lhs);
      if r.Fail? {
        return;
      }
      r := Gen(e.rhs);
      if r.Fail? {
        return;
      }
      out := out + [Pop(Rdi)];
      out := out + [Pop(Rax)];
      out := out + BinOpCode(e.op);
      out := out + [Push(Rax)];
      assert out == old(out) + GenExpr(e.lhs).value + GenExpr(e.rhs).value + OperateCode(e.op);
    }

    /** The call case: the first six arguments are collected into `args`,
        generated last first, and popped into the argument registers. */
    method GenCall(e: Expr) returns (r: Result<()>)
      requires e.Call?
      modifies this
      ensures EmittedExpr(r, old(out), out, GenExpr(e))
      ensures labelCount == old(labelCount) && funcname == old(funcname)
      decreases e, 0
    {
      var args := new Expr[6](_ => Num(0, None));
      var count := 0;
      while count < |e.args| && count < 6
        invariant count <= |e.args| && count <= 6
        invariant forall j :: 0 <= j < count ==> args[j] == e.args[j]
        invariant out == old(out) && labelCount == old(labelCount) && funcname == old(funcname)
      {
        args[count] := e.args[count];
        count := count + 1;
      }
      assert count == CallCount(e.args);
      r := GenArgList(args, count, e.args);
      if r.Fail? {
        return;
      }
      PopArgsInto(count);
      out := out + [MovRaxZero, CallF(e.name, count), Push(Rax)];
    }

    /** The `for (i = 0; i < count; i++) pop argreg[i]` loop. */
    method PopArgsInto(count: nat)
      requires count <= 6
      modifies this
      ensures out == old(out) + PopArgs(count)
      ensures labelCount == old(labelCount) && funcname == old(funcname)
    {
      var k := 0;
      while k < count
        invariant 0 <= k <= count
        invariant out == old(out) + PopArgs(k)
        invariant labelCount == old(labelCount) && funcname == old(funcname)
      {
        out := out + [Pop(ArgRegs[k])];
        k := k + 1;
        assert PopArgs(k) == PopArgs(k - 1) + [Pop(ArgRegs[k - 1])];
      }
    }

    /** The `for (i = count - 1; i >= 0; i--) gen(args[i])` loop. */
    method GenArgList(args: array<Expr>, count: nat, ghost all: seq<Expr>) returns (r: Result<()>)
      requires count <= args.Length && count <= |all| && forall j :: 0 <= j < count ==> args[j] == all[j]
      modifies this
      ensures EmittedExpr(r, old(out), out, GenArgs(all, count))
      ensures labelCount == old(labelCount) && funcname == old(funcname)
      decreases all, 0
    {
      var i := count;
      while i > 0
        invariant 0 <= i <= count
        invariant forall j :: i <= j < count ==> GenExpr(all[j]).Ok?
        invariant out == old(out) + ArgsFrom(all, count, i)
        invariant labelCount == old(labelCount) && funcname == old(funcname)
      {
        i := i - 1;
        assert args[i] == all[i];
        r := Gen(args[i]);
        if r.Fail? {
          ArgsFailAt(all, count, i);
          return;
        }
        assert ArgsFrom(all, count, i) == ArgsFrom(all, count, i + 1) + GenExpr(all[i]).value;
      }
      ArgsAllOk(all, count);
      r := Ok(());
    }

    /** `gen` on a statement node. */
    method GenStatement(s: Stmt) returns (r: Result<()>)
      modifies this
      ensures Emitted(r, old(out), out, labelCount, GenStmt(s, funcname, old(labelCount)))
      ensures funcname == old(funcname)
      decreases s, 3
    {
      match s
      case ExprStmt(x) =>
        r := Gen(x);
        if r.Ok? {
          out := out + [Discard];
        }
      case ReturnStmt(x) =>
        r := Gen(x);
        if r.Ok? {
          out := out + [Pop(Rax)];
          out := out + [Jmp(ReturnOf(funcname))];
        }
      case Block(ss) =>
        r := GenBlock(s);
      case IfStmt(_, _, _) =>
        r := GenIf(s);
      case WhileStmt(_, _) =>
        r := GenWhile(s);
      case ForStmt(_, _, _, _) =>
        r := GenFor(s);
      case Null =>
        r := Fail(MissingOperand);
    }

    method GenBlock(s: Stmt) returns (r: Result<()>)
      requires s.Block?
      modifies this
      ensures Emitted(r, old(out), out, labelCount, GenStmt(s, funcname, old(labelCount)))
      ensures funcname == old(funcname)
      decreases s, 2
    {
      r := GenStatements(s.stmts);
    }

    /** `for (Node* n = first; n; n = n->next) gen(n)`, as a block and a
        function body do it. */
    method GenStatements(ss: seq<Stmt>) returns (r: Result<()>)
      modifies this
      ensures Emitted(r, old(out), out, labelCount, GenStmts(ss, funcname, old(labelCount)))
      ensures funcname == old(funcname)
      decreases ss, 1
    {
      ghost var acc: seq<Instr> := [];
      ghost var whole := GenStmts(ss, funcname, labelCount);
      var k := 0;
      ThenStart(whole);
      assert ss[0..] == ss;
      while k < |ss|
        invariant 0 <= k <= |ss| && funcname == old(funcname)
        invariant out == old(out) + acc
        invariant whole == Then(acc, GenStmts(ss[k..], funcname, labelCount))
      {
        r, acc := StmtStep(ss, k, old(out), acc, whole);
        if r.Fail? {
          return;
        }
        k := k + 1;
      }
      assert ss[k..] == [];
      ThenEnd(acc, labelCount);
      r := Ok(());
    }

    /** One pass of that loop: statement `k`'s code is appended, or its
        failure is the list's. */
    method StmtStep(ss: seq<Stmt>, k: nat, ghost base: seq<Instr>, ghost acc: seq<Instr>,
                    ghost whole: Result<(seq<Instr>, nat)>)
      returns (r: Result<()>, ghost acc': seq<Instr>)
      requires k < |ss| && out == base + acc
      requires whole == Then(acc, GenStmts(ss[k..], funcname, labelCount))
      modifies this
      ensures funcname == old(funcname)
      ensures r.Fail? ==> whole == Fail(r.error)
      ensures r.Ok? ==> out == base + acc' && whole == Then(acc', GenStmts(ss[k + 1..], funcname, labelCount))
      decreases ss, 0
    {
      StmtsThen(ss, k, acc, funcname, labelCount);
      ghost var h := GenStmt(ss[k], funcname, labelCount);
      r := GenStatement(ss[k]);
      acc' := acc;
      if r.Ok? {
        acc' := acc + h.value.0;
      }
    }

    method GenIf(s: Stmt) returns (r: Result<()>)
      requires s.IfStmt?
      modifies this
      ensures Emitted(r, old(out), out, labelCount, GenStmt(s, funcname, old(labelCount)))
      ensures funcname == old(funcname)
      decreases s, 2
    {
      IfSplit(s, funcname, labelCount);
      var c := labelCount;
      labelCount := labelCount + 1;
      var e := labelCount;
      labelCount := labelCount + 1;
      r := Gen(s.cond);
      if r.Fail? {
        return;
      }
      out := out + Branch(if s.elseS.Some? then Else(e) else End(c));
      ghost var mid := out;
      r := GenIfArms(s, c);
      if r.Ok? {
        assert out == old(out) + (mid[|old(out)|..] + out[|mid|..]);
      }
    }

    /** The arms of an `if` whose label numbers `c` and `c + 1` are taken. */
    method GenIfArms(s: Stmt, c: nat) returns (r: Result<()>)
      requires s.IfStmt? && labelCount == c + 2
      modifies this
      ensures Emitted(r, old(out), out, labelCount, IfArms(s, funcname, c))
      ensures funcname == old(funcname)
      decreases s, 1
    {
      r := GenStatement(s.thenS);
      if r.Fail? {
        return;
      }
      ghost var tc := out[|old(out)|..];
      out := out + [Jmp(End(c))];
      if s.elseS.Some? {
        out := out + [Def(Else(c + 1))];
        ghost var mid := out;
        r := GenStatement(s.elseS.value);
        if r.Fail? {
          return;
        }
        ghost var ec := out[|mid|..];
        out := out + [Def(End(c))];
        assert out == old(out) + (tc + [Jmp(End(c)), Def(Else(c + 1))] + ec + [Def(End(c))]);
      } else {
        out := out + [Def(End(c))];
        assert out == old(out) + (tc + [Jmp(End(c)), Def(End(c))]);
      }
    }

    method GenWhile(s: Stmt) returns (r: Result<()>)
      requires s.WhileStmt?
      modifies this
      ensures Emitted(r, old(out), out, labelCount, GenStmt(s, funcname, old(labelCount)))
      ensures funcname == old(funcname)
      decreases s, 2
    {
      var c := labelCount;
      labelCount := labelCount + 1;
      var e := labelCount;
      labelCount := labelCount + 1;
      out := out + [Def(Begin(c))];
      r := Gen(s.cond);
      if r.Fail? {
        return;
      }
      out := out + Branch(End(e));
      r := GenStatement(s.body);
      if r.Fail? {
        return;
      }
      out := out + [Jmp(Begin(c)), Def(End(e))];
    }

    /** The `for` case, with the initialiser's and the increment's values
        popped (see `CodegenFinding`). */
    method GenFor(s: Stmt) returns (r: Result<()>)
      requires s.ForStmt?
      modifies this
      ensures Emitted(r, old(out), out, labelCount, GenStmt(s, funcname, old(labelCount)))
      ensures funcname == old(funcname)
      decreases s, 2
    {
      ForSplit(s, funcname, labelCount);
      ghost var ic := GenClause(s.init, [Discard]);
      var c := labelCount;
      labelCount := labelCount + 1;
      labelCount := labelCount + 1;
      r := GenOptional(s.init, [Discard]);
      if r.Fail? {
        return;
      }
      out := out + [Def(Begin(c))];
      ghost var mid := out;
      r := GenForLoop(s, c);
      if r.Ok? {
        assert out == old(out) + (ic.value + [Def(Begin(c))] + out[|mid|..]);
      }
    }

    /** A `for` loop from its test on, its label numbers `c` and `c + 1`
        taken. */
    method GenForLoop(s: Stmt, c: nat) returns (r: Result<()>)
      requires s.ForStmt? && labelCount == c + 2
      modifies this
      ensures Emitted(r, old(out), out, labelCount, ForLoop(s, funcname, c))
      ensures funcname == old(funcname)
      decreases s, 1
    {
      r := GenOptional(s.test, Branch(End(c + 1)));
      if r.Fail? {
        return;
      }
      ghost var mid := out;
      r := GenForBody(s, c);
      if r.Ok? {
        assert out == old(out) + (mid[|old(out)|..] + out[|mid|..]);
      }
    }

    /** The body, the increment and the jump back to the test. */
    method GenForBody(s: Stmt, c: nat) returns (r: Result<()>)
      requires s.ForStmt? && labelCount == c + 2
      modifies this
      ensures Emitted(r, old(out), out, labelCount, ForBody(s, funcname, c))
      ensures funcname == old(funcname)
      decreases s, 0
    {
      r := GenStatement(s.body);
      if r.Fail? {
        return;
      }
      ghost var bc := out[|old(out)|..];
      ghost var mid := out;
      r := GenOptional(s.inc, [Discard]);
      if r.Fail? {
        return;
      }
      ghost var nc := out[|mid|..];
      out := out + [Jmp(Begin(c)), Def(End(c + 1))];
      assert out == old(out) + (bc + nc + [Jmp(Begin(c)), Def(End(c + 1))]);
    }

    /** An optional `for` clause: when present, its code and then `after`. */
    method GenOptional(e: Option<Expr>, after: seq<Instr>) returns (r: Result<()>)
      modifies this
      ensures EmittedExpr(r, old(out), out, GenClause(e, after))
      ensures labelCount == old(labelCount) && funcname == old(funcname)
      decreases e
    {
      r := Ok(());
      if e.Some? {
        r := Gen(e.value);
        if r.Fail? {
          return;
        }
        out := out + after;
      }
    }

    /** One function of `codegen`'s loop: the prologue, the parameter
        copies, the body and the epilogue, with `funcname` set to its name. */
    method GenFunctionCode(f: Function) returns (r: Result<()>)
      modifies this
      ensures Emitted(r, old(out), out, labelCount, GenFunction(f, old(labelCount)))
      ensures funcname == f.name
    {
      funcname := f.name;
      out := out + Prologue(f);
      r := CopyParams(f.params);
      if r.Fail? {
        return;
      }
      ghost var head := out;
      r := GenStatements(f.body);
      if r.Fail? {
        return;
      }
      ghost var bc := out[|head|..];
      assert out == head + bc;
      out := out + Epilogue(f);
      assert out == old(out) + (Prologue(f) + ParamCopies(f.params) + bc + Epilogue(f));
    }

    /** The parameter loop: `mov [rbp-offset], argreg[i]` for each
        parameter. A seventh parameter has no register. */
    method CopyParams(params: seq<Var>) returns (r: Result<()>)
      modifies this
      ensures r.Ok? <==> |params| <= 6
      ensures r.Fail? ==> r.error == TooManyParams
      ensures r.Ok? ==> out == old(out) + ParamCopies(params)
      ensures labelCount == old(labelCount) && funcname == old(funcname)
    {
      var i := 0;
      while i < |params|
        invariant 0 <= i <= |params| && i <= 6
        invariant out == old(out) + ParamCopies(params[..i])
        invariant labelCount == old(labelCount) && funcname == old(funcname)
      {
        if i == 6 {
          return Fail(TooManyParams);
        }
        out := out + [StoreParam(params[i].offset, ArgRegs[i])];
        i := i + 1;
        assert ParamCopies(params[..i]) == ParamCopies(params[..i - 1]) + [StoreParam(params[i - 1].offset, ArgRegs[i - 1])];
      }
      assert params[..i] == params;
      r := Ok(());
    }

    /** `codegen`: the syntax directive, then every function in order. */
    method Codegen(fs: seq<Function>) returns (r: Result<()>)
      modifies this
      ensures Emitted(r, old(out), out, labelCount, GenProgram(fs, old(labelCount)))
    {
      ghost var g := GenFunctions(fs, labelCount);
      out := out + [IntelSyntax];
      ghost var start := out;
      r := GenFunctionsCode(fs);
      if g.Ok? {
        assert out == start + g.value.0;
        assert out == old(out) + ([IntelSyntax] + g.value.0);
      }
    }

    /** The loop over the program's functions. */
    method GenFunctionsCode(fs: seq<Function>) returns (r: Result<()>)
      modifies this
      ensures Emitted(r, old(out), out, labelCount, GenFunctions(fs, old(labelCount)))
    {
      ghost var acc: seq<Instr> := [];
      ghost var whole := GenFunctions(fs, labelCount);
      var i := 0;
      ThenStart(whole);
      assert fs[0..] == fs;
      while i < |fs|
        invariant 0 <= i <= |fs|
        invariant out == old(out) + acc
        invariant whole == Then(acc, GenFunctions(fs[i..], labelCount))
      {
        r, acc := FunctionStep(fs, i, old(out), acc, whole);
        if r.Fail? {
          return;
        }
        i := i + 1;
      }
      assert fs[i..] == [];
      ThenEnd(acc, labelCount);
      r := Ok(());
    }

    /** One pass of that loop: function `i`'s code is appended, or its
        failure is the whole program's. */
    method FunctionStep(fs: seq<Function>, i: nat, ghost base: seq<Instr>, ghost acc: seq<Instr>,
                        ghost whole: Result<(seq<Instr>, nat)>)
      returns (r: Result<()>, ghost acc': seq<Instr>)
      requires i < |fs| && out == base + acc
      requires whole == Then(acc, GenFunctions(fs[i..], labelCount))
      modifies this
      ensures r.Fail? ==> whole == Fail(r.error)
      ensures r.Ok? ==> out == base + acc' && whole == Then(acc', GenFunctions(fs[i + 1..], labelCount))
    {
      FunctionsThen(fs, i, acc, labelCount);
      ghost var h := GenFunction(fs[i], labelCount);
      r := GenFunctionCode(fs[i]);
      acc' := acc;
      if r.Ok? {
        acc' := acc + h.value.0;
      }
    }
  }
}
