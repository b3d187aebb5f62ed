/** The `for` statement as codegen.c emits it. The parser keeps a `for`'s
    initialiser and increment as bare expressions, and `gen` pushes their
    values without ever popping them: the initialiser leaves one value on
    the stack and every pass around the loop leaves one more. `GenStmt`
    pops both with `add rsp, 8`, as an expression statement does. */
module CodegenFinding {
  import opened Errors
  import opened Ast
  import opened Asm
  import opened CodegenSpec
  import opened CodegenEffect

  /** The `for` case as written: no `add rsp, 8` after the initialiser and
      the increment. Nested statements are generated by `GenStmt`. */
  function ForAsWritten(init: Option<Expr>, test: Option<Expr>, inc: Option<Expr>, body: Stmt,
                        fname: string, n: nat): Result<(seq<Instr>, nat)>
  {
    var ic :- GenClause(init, []);
    var tc :- GenClause(test, Branch(End(n + 1)));
    var br :- GenStmt(body, fname, n + 2);
    var nc :- GenClause(inc, []);
    Ok((ic + [Def(Begin(n))] + Pass(tc, br.0, nc, n) + [Def(End(n + 1))], br.1))
  }

  /** The code of one pass around a loop: after `.Lbegin`, up to and
      including the jump back. */
  function Pass(tc: seq<Instr>, bc: seq<Instr>, nc: seq<Instr>, n: nat): seq<Instr> {
    tc + bc + nc + [Jmp(Begin(n))]
  }

  lemma PassDelta(tc: seq<Instr>, bc: seq<Instr>, nc: seq<Instr>, n: nat)
    ensures Delta(Pass(tc, bc, nc, n)) == Delta(tc) + Delta(bc) + Delta(nc)
  {
    DeltaJoin3(tc, bc, nc);
    DeltaAppend(tc + bc + nc, [Jmp(Begin(n))]);
    assert [Jmp(Begin(n))][1..] == [];
  }

  lemma PushClause(e: Option<Expr>)
    requires GenClause(e, []).Ok?
    ensures Delta(GenClause(e, []).value) == (if e.Some? then 1 else 0)
  {
    if e.Some? {
      ExprPushesOne(e.value);
      assert GenExpr(e.value).value + [] == GenExpr(e.value).value;
    }
  }

  /** The code as written is the initialiser, `.Lbegin`, the passes and `.Lend`. */
  lemma ForAsWrittenShape(init: Option<Expr>, test: Option<Expr>, inc: Option<Expr>, body: Stmt, fname: string, n: nat)
    requires ForAsWritten(init, test, inc, body, fname, n).Ok?
    ensures GenClause(init, []).Ok? && GenClause(test, Branch(End(n + 1))).Ok?
    ensures GenStmt(body, fname, n + 2).Ok? && GenClause(inc, []).Ok?
    ensures ForAsWritten(init, test, inc, body, fname, n).value.0 ==
              GenClause(init, []).value + [Def(Begin(n))] +
              Pass(GenClause(test, Branch(End(n + 1))).value, GenStmt(body, fname, n + 2).value.0,
                   GenClause(inc, []).value, n) + [Def(End(n + 1))]
  {
  }

  /** As written, the code before `.Lbegin` leaves one value on the stack
      when there is an initialiser, and each pass leaves one more when
      there is an increment; the whole statement is not stack neutral. */
  lemma ForAsWrittenLeaks(init: Option<Expr>, test: Option<Expr>, inc: Option<Expr>, body: Stmt, fname: string, n: nat)
    requires ForAsWritten(init, test, inc, body, fname, n).Ok?
    ensures Delta(GenClause(init, []).value) == (if init.Some? then 1 else 0)
    ensures Delta(Pass(GenClause(test, Branch(End(n + 1))).value, GenStmt(body, fname, n + 2).value.0,
                       GenClause(inc, []).value, n)) == (if inc.Some? then 1 else 0)
    ensures Delta(ForAsWritten(init, test, inc, body, fname, n).value.0) ==
              (if init.Some? then 1 else 0) + (if inc.Some? then 1 else 0)
  {
    ForAsWrittenShape(init, test, inc, body, fname, n);
    var ic := GenClause(init, []).value;
    var tc := GenClause(test, Branch(End(n + 1))).value;
    var bc := GenStmt(body, fname, n + 2).value.0;
    var nc := GenClause(inc, []).value;
    PushClause(init);
    PushClause(inc);
    BranchEffect(End(n + 1));
    ClauseNeutral(test, Branch(End(n + 1)));
    StmtNeutral(body, fname, n + 2);
    PassDelta(tc, bc, nc, n);
    ForWhole(ic, Pass(tc, bc, nc, n), n);
  }

  lemma ForWhole(ic: seq<Instr>, pass: seq<Instr>, n: nat)
    ensures Delta(ic + [Def(Begin(n))] + pass + [Def(End(n + 1))]) == Delta(ic) + Delta(pass)
  {
    DeltaJoin3(ic, [Def(Begin(n))], pass);
    DeltaAppend(ic + [Def(Begin(n))] + pass, [Def(End(n + 1))]);
    assert [Def(Begin(n))][1..] == [] && [Def(End(n + 1))][1..] == [];
  }

  /** With the pops, the code before `.Lbegin` and each pass are both stack
      neutral. */
  lemma ForPassNeutral(init: Option<Expr>, test: Option<Expr>, inc: Option<Expr>, body: Stmt, fname: string, n: nat)
    requires GenStmt(ForStmt(init, test, inc, body), fname, n).Ok?
    ensures Delta(GenClause(init, [Discard]).value) == 0
    ensures Delta(Pass(GenClause(test, Branch(End(n + 1))).value, GenStmt(body, fname, n + 2).value.0,
                       GenClause(inc, [Discard]).value, n)) == 0
  {
    assert [Discard][1..] == [];
    BranchEffect(End(n + 1));
    ClauseNeutral(init, [Discard]);
    ClauseNeutral(test, Branch(End(n + 1)));
    ClauseNeutral(inc, [Discard]);
    StmtNeutral(body, fname, n + 2);
    PassDelta(GenClause(test, Branch(End(n + 1))).value, GenStmt(body, fname, n + 2).value.0,
              GenClause(inc, [Discard]).value, n);
  }

  /** `for (i = 0; i < 3; i = i + 1) {}`: as written the code before
      `.Lbegin` leaves one value and each pass one more. The loop runs the
      initialiser, three passes and a last test that jumps to `.Lend` (the
      test pops what it pushes), so it leaves four values behind. */
  lemma ForLeakExample()
    ensures var i := VarRef(Var("i", Types.Int, true, 8), None);
            var init := Some(Assign(i, N(0), None));
            var test := Some(Bin(Lt, i, N(3)));
            var inc := Some(Assign(i, Bin(Add, i, N(1)), None));
            ForAsWritten(init, test, inc, Block([]), "main", 0).Ok? &&
            Delta(ForAsWritten(init, test, inc, Block([]), "main", 0).value.0) == 2
    ensures var i := VarRef(Var("i", Types.Int, true, 8), None);
            var init := Some(Assign(i, N(0), None));
            var test := Some(Bin(Lt, i, N(3)));
            var inc := Some(Assign(i, Bin(Add, i, N(1)), None));
            ForAsWritten(init, test, inc, Block([]), "main", 0).Ok? &&
            AfterPasses(init, test, inc, Block([]), "main", 0, 3) == 4
  {
    var i := VarRef(Var("i", Types.Int, true, 8), None);
    var init := Some(Assign(i, N(0), None));
    var test := Some(Bin(Lt, i, N(3)));
    var inc := Some(Assign(i, Bin(Add, i, N(1)), None));
    ExampleClauses(i);
    ForAsWrittenLeaks(init, test, inc, Block([]), "main", 0);
    ForAsWrittenAfterPasses(init, test, inc, Block([]), "main", 0, 3);
  }

  /** The stack growth of the code as written once the loop has run the
      initialiser, `k` passes and a last test that exits to `.Lend`. */
  function AfterPasses(init: Option<Expr>, test: Option<Expr>, inc: Option<Expr>, body: Stmt,
                       fname: string, n: nat, k: nat): int
    requires ForAsWritten(init, test, inc, body, fname, n).Ok?
  {
    ForAsWrittenShape(init, test, inc, body, fname, n);
    var tc := GenClause(test, Branch(End(n + 1))).value;
    Delta(GenClause(init, []).value) +
      k * Delta(Pass(tc, GenStmt(body, fname, n + 2).value.0, GenClause(inc, []).value, n)) +
      Delta(tc)
  }

  /** As written, a loop that runs `k` passes and then exits leaves one
      value for the initialiser and `k` more for the increments; the last
      test pops what it pushes. */
  lemma ForAsWrittenAfterPasses(init: Option<Expr>, test: Option<Expr>, inc: Option<Expr>, body: Stmt,
                                fname: string, n: nat, k: nat)
    requires ForAsWritten(init, test, inc, body, fname, n).Ok?
    ensures AfterPasses(init, test, inc, body, fname, n, k) ==
            (if init.Some? then 1 else 0) + k * (if inc.Some? then 1 else 0)
  {
    ForAsWrittenShape(init, test, inc, body, fname, n);
    ForAsWrittenLeaks(init, test, inc, body, fname, n);
    BranchEffect(End(n + 1));
    ClauseNeutral(test, Branch(End(n + 1)));
  }

  lemma ExampleClauses(i: Expr)
    requires i == VarRef(Var("i", Types.Int, true, 8), None)
    ensures GenClause(Some(Assign(i, N(0), None)), []).Ok?
    ensures GenClause(Some(Bin(Lt, i, N(3))), Branch(End(1))).Ok?
    ensures GenClause(Some(Assign(i, Bin(Add, i, N(1)), None)), []).Ok?
    ensures GenStmt(Block([]), "main", 2).Ok?
  {
    assert GenExpr(i).Ok?;
  }
}
