/** The stack discipline of the generated code: an expression's code
    pushes exactly one value, a statement's code leaves the stack as it
    found it, and neither contains a stray label or jump of its own. */
module CodegenEffect {
  import opened Errors
  import opened Ast
  import opened Asm
  import opened CodegenSpec

  lemma PlainAppend(a: seq<Instr>, b: seq<Instr>)
    requires Plain(a) && Plain(b)
    ensures Plain(a + b)
  {
    forall i | 0 <= i < |a + b|
      ensures !(a + b)[i].Def? && !(a + b)[i].Je? && !(a + b)[i].Jmp?
    {
      if i >= |a| {
        assert (a + b)[i] == b[i - |a|];
      }
    }
  }

  /** A run of `pop`s takes as many values off the stack as it has instructions. */
  lemma {:induction false} PopsDelta(code: seq<Instr>)
    requires forall i :: 0 <= i < |code| ==> code[i].Pop?
    ensures Delta(code) == -|code|
    decreases |code|
  {
    if code != [] {
      PopsDelta(code[1..]);
    }
  }

  lemma Small2(a: Instr, b: Instr)
    ensures Delta([a, b]) == Effect(a) + Effect(b)
    ensures Defs([a, b]) == Defs([a]) + Defs([b]) && Targets([a, b]) == Targets([a]) + Targets([b])
  {
    assert [a, b] == [a] + [b];
    DeltaAppend([a], [b]);
    DefsAppend([a], [b]);
    TargetsAppend([a], [b]);
    assert [a][1..] == [] && [b][1..] == [];
  }

  lemma Small3(a: Instr, b: Instr, c: Instr)
    ensures Delta([a, b, c]) == Effect(a) + Effect(b) + Effect(c)
    ensures Defs([a, b, c]) == Defs([a]) + Defs([b]) + Defs([c])
    ensures Targets([a, b, c]) == Targets([a]) + Targets([b]) + Targets([c])
  {
    assert [a, b, c] == [a, b] + [c];
    Small2(a, b);
    DeltaAppend([a, b], [c]);
    DefsAppend([a, b], [c]);
    TargetsAppend([a, b], [c]);
    assert [c][1..] == [];
  }

  lemma LoadEffect()
    ensures Delta(LoadCode) == 0 && Plain(LoadCode)
  {
    Small3(Pop(Rax), Load, Push(Rax));
  }

  lemma StoreEffect()
    ensures Delta(StoreCode) == -1 && Plain(StoreCode)
  {
    Small2(Pop(Rdi), Pop(Rax));
    Small2(Store, Push(Rdi));
    assert StoreCode == [Pop(Rdi), Pop(Rax)] + [Store, Push(Rdi)];
    DeltaAppend([Pop(Rdi), Pop(Rax)], [Store, Push(Rdi)]);
  }

  lemma CallTailEffect(name: string, k: nat)
    ensures Delta([MovRaxZero, CallF(name, k), Push(Rax)]) == 1 && Plain([MovRaxZero, CallF(name, k), Push(Rax)])
  {
    Small3(MovRaxZero, CallF(name, k), Push(Rax));
  }

  lemma BranchEffect(l: Label)
    ensures Delta(Branch(l)) == -1 && Defs(Branch(l)) == [] && Targets(Branch(l)) == [l]
  {
    Small3(Pop(Rax), CmpRaxZero, Je(l));
    assert [Je(l)][1..] == [];
    assert [Pop(Rax)][1..] == [] && [CmpRaxZero][1..] == [];
  }

  /** Every expression `gen` accepts nets exactly one pushed value. */
  lemma {:induction false} ExprPushesOne(e: Expr)
    requires GenExpr(e).Ok?
    ensures Delta(GenExpr(e).value) == 1 && Plain(GenExpr(e).value)
    decreases e, 1
  {
    match e
    case Num(v, _) =>
      assert [PushImm(v)][1..] == [];
    case VarRef(_, _) =>
      VarEffect(e);
    case Assign(l, r, _) =>
      ExprPushesOne(r);
      AssignEffect(l, r, GenExpr(r).value);
    case Binary(op, a, b, _) =>
      ExprPushesOne(a);
      ExprPushesOne(b);
      BinaryEffect(op, GenExpr(a).value, GenExpr(b).value);
    case Call(name, args, _, _) =>
      var k := CallCount(args);
      ArgsPushK(args, k);
      CallEffect(name, k, GenArgs(args, k).value);
  }

  lemma VarEffect(e: Expr)
    requires e.VarRef?
    ensures Delta(GenAddr(e).value + LoadCode) == 1 && Plain(GenAddr(e).value + LoadCode)
  {
    var a := GenAddr(e).value;
    Small2(LeaLocal(e.v.offset), Push(Rax));
    LoadEffect();
    DeltaAppend(a, LoadCode);
    PlainAppend(a, LoadCode);
  }

  lemma AssignEffect(l: Expr, r: Expr, c: seq<Instr>)
    requires l.VarRef? && Delta(c) == 1 && Plain(c)
    ensures Delta(GenAddr(l).value + c + StoreCode) == 1 && Plain(GenAddr(l).value + c + StoreCode)
  {
    var a := GenAddr(l).value;
    Small2(LeaLocal(l.v.offset), Push(Rax));
    StoreEffect();
    DeltaAppend(a + c, StoreCode);
    DeltaAppend(a, c);
    PlainAppend(a, c);
    PlainAppend(a + c, StoreCode);
  }

  lemma BinaryEffect(op: BinOp, ca: seq<Instr>, cb: seq<Instr>)
    requires Delta(ca) == 1 && Plain(ca) && Delta(cb) == 1 && Plain(cb)
    ensures Delta(ca + cb + OperateCode(op)) == 1 && Plain(ca + cb + OperateCode(op))
  {
    OperateCodeEffect(op);
    DeltaAppend(ca + cb, OperateCode(op));
    DeltaAppend(ca, cb);
    PlainAppend(ca, cb);
    PlainAppend(ca + cb, OperateCode(op));
  }

  lemma CallEffect(name: string, k: nat, c: seq<Instr>)
    requires k <= 6 && Delta(c) == k && Plain(c)
    ensures var code := c + PopArgs(k) + [MovRaxZero, CallF(name, k), Push(Rax)];
            Delta(code) == 1 && Plain(code)
  {
    var tail := [MovRaxZero, CallF(name, k), Push(Rax)];
    CallTailEffect(name, k);
    PopsDelta(PopArgs(k));
    DeltaAppend(c + PopArgs(k), tail);
    DeltaAppend(c, PopArgs(k));
    PlainAppend(c, PopArgs(k));
    PlainAppend(c + PopArgs(k), tail);
  }

  /** The argument code pushes one value per argument passed. */
  lemma {:induction false} ArgsPushK(args: seq<Expr>, k: nat)
    requires k <= |args| && GenArgs(args, k).Ok?
    ensures Delta(GenArgs(args, k).value) == k && Plain(GenArgs(args, k).value)
    decreases args, 0, k
  {
    if k > 0 {
      ExprPushesOne(args[k - 1]);
      ArgsPushK(args, k - 1);
      DeltaAppend(GenExpr(args[k - 1]).value, GenArgs(args, k - 1).value);
      PlainAppend(GenExpr(args[k - 1]).value, GenArgs(args, k - 1).value);
    }
  }

  // ---------------------------------------------------------------------
  // Statements

  lemma DeltaJoin3(a: seq<Instr>, b: seq<Instr>, c: seq<Instr>)
    ensures Delta(a + b + c) == Delta(a) + Delta(b) + Delta(c)
  {
    DeltaAppend(a + b, c);
    DeltaAppend(a, b);
  }

  /** An optional clause followed by code that takes its value off the stack. */
  lemma ClauseNeutral(e: Option<Expr>, after: seq<Instr>)
    requires GenClause(e, after).Ok? && Delta(after) == -1
    ensures Delta(GenClause(e, after).value) == 0
  {
    if e.Some? {
      ExprPushesOne(e.value);
      DeltaAppend(GenExpr(e.value).value, after);
    }
  }

  /** Every statement `gen` accepts leaves the stack as it found it. */
  lemma {:induction false} StmtNeutral(s: Stmt, fname: string, n: nat)
    requires GenStmt(s, fname, n).Ok?
    ensures Delta(GenStmt(s, fname, n).value.0) == 0
    decreases s, 1
  {
    match s
    case ExprStmt(e) =>
      ExprPushesOne(e);
      DeltaAppend(GenExpr(e).value, [Discard]);
      assert [Discard][1..] == [];
    case ReturnStmt(e) =>
      ExprPushesOne(e);
      DeltaAppend(GenExpr(e).value, [Pop(Rax), Jmp(ReturnOf(fname))]);
      Small2(Pop(Rax), Jmp(ReturnOf(fname)));
    case Block(ss) =>
      StmtsNeutral(ss, fname, n);
    case IfStmt(cond, t, els) =>
      ExprPushesOne(cond);
      StmtNeutral(t, fname, n + 2);
      var tr := GenStmt(t, fname, n + 2).value;
      if els.Some? {
        StmtNeutral(els.value, fname, tr.1);
        IfElseNeutral(GenExpr(cond).value, tr.0, GenStmt(els.value, fname, tr.1).value.0, n);
      } else {
        IfNeutral(GenExpr(cond).value, tr.0, n);
      }
    case WhileStmt(cond, body) =>
      ExprPushesOne(cond);
      StmtNeutral(body, fname, n + 2);
      WhileNeutral(GenExpr(cond).value, GenStmt(body, fname, n + 2).value.0, n);
    case ForStmt(init, test, inc, body) =>
      BranchEffect(End(n + 1));
      assert [Discard][1..] == [];
      ClauseNeutral(init, [Discard]);
      ClauseNeutral(test, Branch(End(n + 1)));
      ClauseNeutral(inc, [Discard]);
      StmtNeutral(body, fname, n + 2);
      ForNeutral(GenClause(init, [Discard]).value, GenClause(test, Branch(End(n + 1))).value,
                 GenStmt(body, fname, n + 2).value.0, GenClause(inc, [Discard]).value, n);
  }

  lemma {:induction false} StmtsNeutral(ss: seq<Stmt>, fname: string, n: nat)
    requires GenStmts(ss, fname, n).Ok?
    ensures Delta(GenStmts(ss, fname, n).value.0) == 0
    decreases ss, 0
  {
    if ss != [] {
      StmtNeutral(ss[0], fname, n);
      var r := GenStmt(ss[0], fname, n).value;
      StmtsNeutral(ss[1..], fname, r.1);
      DeltaAppend(r.0, GenStmts(ss[1..], fname, r.1).value.0);
    }
  }

  lemma IfNeutral(cc: seq<Instr>, tc: seq<Instr>, n: nat)
    requires Delta(cc) == 1 && Delta(tc) == 0
    ensures Delta(cc + Branch(End(n)) + tc + [Jmp(End(n)), Def(End(n))]) == 0
  {
    BranchEffect(End(n));
    Small2(Jmp(End(n)), Def(End(n)));
    DeltaAppend(cc + Branch(End(n)) + tc, [Jmp(End(n)), Def(End(n))]);
    DeltaJoin3(cc, Branch(End(n)), tc);
  }

  /** The condition, its branch and a branch body: net zero. */
  lemma GuardedNeutral(cc: seq<Instr>, l: Label, tc: seq<Instr>)
    requires Delta(cc) == 1 && Delta(tc) == 0
    ensures Delta(cc + Branch(l) + tc) == 0
  {
    BranchEffect(l);
    DeltaJoin3(cc, Branch(l), tc);
  }

  lemma IfElseNeutral(cc: seq<Instr>, tc: seq<Instr>, ec: seq<Instr>, n: nat)
    requires Delta(cc) == 1 && Delta(tc) == 0 && Delta(ec) == 0
    ensures Delta(cc + Branch(Else(n + 1)) + tc + [Jmp(End(n)), Def(Else(n + 1))] + ec + [Def(End(n))]) == 0
  {
    var front := cc + Branch(Else(n + 1)) + tc;
    GuardedNeutral(cc, Else(n + 1), tc);
    ElseNeutral(front, ec, n);
  }

  lemma ElseNeutral(front: seq<Instr>, ec: seq<Instr>, n: nat)
    requires Delta(front) == 0 && Delta(ec) == 0
    ensures Delta(front + [Jmp(End(n)), Def(Else(n + 1))] + ec + [Def(End(n))]) == 0
  {
    Small2(Jmp(End(n)), Def(Else(n + 1)));
    DeltaJoin3(front, [Jmp(End(n)), Def(Else(n + 1))], ec);
    DeltaAppend(front + [Jmp(End(n)), Def(Else(n + 1))] + ec, [Def(End(n))]);
    assert [Def(End(n))][1..] == [];
  }

  lemma WhileNeutral(cc: seq<Instr>, bc: seq<Instr>, n: nat)
    requires Delta(cc) == 1 && Delta(bc) == 0
    ensures Delta([Def(Begin(n))] + cc + Branch(End(n + 1)) + bc + [Jmp(Begin(n)), Def(End(n + 1))]) == 0
  {
    BranchEffect(End(n + 1));
    Small2(Jmp(Begin(n)), Def(End(n + 1)));
    assert [Def(Begin(n))][1..] == [];
    var front := [Def(Begin(n))] + cc + Branch(End(n + 1));
    DeltaJoin3([Def(Begin(n))], cc, Branch(End(n + 1)));
    DeltaJoin3(front, bc, [Jmp(Begin(n)), Def(End(n + 1))]);
  }

  lemma ForNeutral(ic: seq<Instr>, tc: seq<Instr>, bc: seq<Instr>, nc: seq<Instr>, n: nat)
    requires Delta(ic) == 0 && Delta(tc) == 0 && Delta(bc) == 0 && Delta(nc) == 0
    ensures Delta(ic + [Def(Begin(n))] + tc + bc + nc + [Jmp(Begin(n)), Def(End(n + 1))]) == 0
  {
    Small2(Jmp(Begin(n)), Def(End(n + 1)));
    assert [Def(Begin(n))][1..] == [];
    var front := ic + [Def(Begin(n))] + tc;
    DeltaJoin3(ic, [Def(Begin(n))], tc);
    DeltaJoin3(front, bc, nc);
    DeltaAppend(front + bc + nc, [Jmp(Begin(n)), Def(End(n + 1))]);
  }
}
