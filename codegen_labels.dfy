/** The labels of the generated code: each `if`, `while` and `for` takes two
    fresh numbers from the label counter, no number names two labels, and
    every jump goes to a label the same function defines. */
module CodegenLabels {
  import opened Errors
  import opened Ast
  import opened Asm
  import opened CodegenSpec
  import opened CodegenEffect

  /** The number of `if`, `while` and `for` statements in `s`. */
  function Controls(s: Stmt): nat
    decreases s, 1
  {
    match s
    case IfStmt(_, t, els) => 1 + Controls(t) + (if els.Some? then Controls(els.value) else 0)
    case WhileStmt(_, body) => 1 + Controls(body)
    case ForStmt(_, _, _, body) => 1 + Controls(body)
    case Block(ss) => ControlsList(ss)
    case _ => 0
  }

  function ControlsList(ss: seq<Stmt>): nat
    decreases ss, 0
  {
    if ss == [] then 0 else Controls(ss[0]) + ControlsList(ss[1..])
  }

  /** Every label of `ls` is a numbered one, with its number in `[lo, hi)`. */
  predicate Numbered(ls: seq<Label>, lo: nat, hi: nat) {
    forall l :: l in ls ==> !l.ReturnOf? && lo <= l.n < hi
  }

  /** No number names two labels of `ls`. */
  predicate UniqueNumbers(ls: seq<Label>) {
    forall i, j :: 0 <= i < j < |ls| && !ls[i].ReturnOf? && !ls[j].ReturnOf? ==> ls[i].n != ls[j].n
  }

  /** Every jump of `code` goes to a label `code` defines or to the return
      label of function `fname`. */
  predicate Closed(code: seq<Instr>, fname: string) {
    forall l :: l in Targets(code) ==> l in Defs(code) || l == ReturnOf(fname)
  }

  /** The labels of a statement's code generated from number `lo` on, when
      the counter ends at `hi`. */
  predicate WellLabelled(code: seq<Instr>, fname: string, lo: nat, hi: nat) {
    Numbered(Defs(code), lo, hi) && UniqueNumbers(Defs(code)) && Closed(code, fname)
  }

  lemma UniqueJoin(x: seq<Label>, y: seq<Label>)
    requires UniqueNumbers(x) && UniqueNumbers(y)
    requires forall a, b :: a in x && b in y && !a.ReturnOf? && !b.ReturnOf? ==> a.n != b.n
    ensures UniqueNumbers(x + y)
  {
    forall i, j | 0 <= i < j < |x + y| && !(x + y)[i].ReturnOf? && !(x + y)[j].ReturnOf?
      ensures (x + y)[i].n != (x + y)[j].n
    {
      if j < |x| {
        assert (x + y)[i] == x[i] && (x + y)[j] == x[j];
      } else if i >= |x| {
        assert (x + y)[i] == y[i - |x|] && (x + y)[j] == y[j - |x|];
      } else {
        assert (x + y)[i] == x[i] && x[i] in x;
        assert (x + y)[j] == y[j - |x|] && y[j - |x|] in y;
      }
    }
  }

  /** Numbers that are unique make labels that are distinct. */
  lemma NumberedDistinct(ls: seq<Label>, lo: nat, hi: nat)
    requires Numbered(ls, lo, hi) && UniqueNumbers(ls)
    ensures Distinct(ls)
  {
    forall i, j | 0 <= i < j < |ls|
      ensures ls[i] != ls[j]
    {
      assert ls[i] in ls && ls[j] in ls;
    }
  }

  lemma One(x: Instr)
    ensures Defs([x]) == (if x.Def? then [x.defined] else [])
    ensures Targets([x]) == (if x.Je? || x.Jmp? then [x.target] else [])
  {
    assert [x][1..] == [];
  }

  lemma Join3(a: seq<Instr>, b: seq<Instr>, c: seq<Instr>)
    ensures Defs(a + b + c) == Defs(a) + Defs(b) + Defs(c)
    ensures Targets(a + b + c) == Targets(a) + Targets(b) + Targets(c)
  {
    DefsAppend(a + b, c);
    DefsAppend(a, b);
    TargetsAppend(a + b, c);
    TargetsAppend(a, b);
  }

  /** Straight-line code followed by a few fixed instructions has only the
      labels of those instructions. */
  lemma PlainThen(c: seq<Instr>, tail: seq<Instr>)
    requires Plain(c)
    ensures Defs(c + tail) == Defs(tail) && Targets(c + tail) == Targets(tail)
  {
    PlainHasNoLabels(c);
    DefsAppend(c, tail);
    TargetsAppend(c, tail);
  }

  lemma BranchLabels(c: seq<Instr>, l: Label)
    requires Plain(c)
    ensures Defs(c + Branch(l)) == [] && Targets(c + Branch(l)) == [l]
  {
    BranchEffect(l);
    PlainThen(c, Branch(l));
  }

  lemma ClauseLabels(e: Option<Expr>, after: seq<Instr>)
    requires GenClause(e, after).Ok?
    ensures Defs(GenClause(e, after).value) == (if e.Some? then Defs(after) else [])
    ensures Targets(GenClause(e, after).value) == (if e.Some? then Targets(after) else [])
  {
    if e.Some? {
      ExprPushesOne(e.value);
      PlainThen(GenExpr(e.value).value, after);
    }
  }

  // ---------------------------------------------------------------------
  // The labels of each statement form

  lemma IfShape(cc: seq<Instr>, tc: seq<Instr>, n: nat)
    requires Plain(cc)
    ensures var code := cc + Branch(End(n)) + tc + [Jmp(End(n)), Def(End(n))];
            Defs(code) == Defs(tc) + [End(n)] && Targets(code) == [End(n)] + Targets(tc) + [End(n)]
  {
    BranchLabels(cc, End(n));
    Small2(Jmp(End(n)), Def(End(n)));
    One(Jmp(End(n)));
    One(Def(End(n)));
    Join3(cc + Branch(End(n)), tc, [Jmp(End(n)), Def(End(n))]);
  }

  lemma IfElseShape(cc: seq<Instr>, tc: seq<Instr>, ec: seq<Instr>, n: nat)
    requires Plain(cc)
    ensures var code := cc + Branch(Else(n + 1)) + tc + [Jmp(End(n)), Def(Else(n + 1))] + ec + [Def(End(n))];
            Defs(code) == Defs(tc) + [Else(n + 1)] + Defs(ec) + [End(n)] &&
            Targets(code) == [Else(n + 1)] + Targets(tc) + [End(n)] + Targets(ec)
  {
    var front := cc + Branch(Else(n + 1)) + tc;
    BranchLabels(cc, Else(n + 1));
    DefsAppend(cc + Branch(Else(n + 1)), tc);
    TargetsAppend(cc + Branch(Else(n + 1)), tc);
    assert Defs(front) == Defs(tc) && Targets(front) == [Else(n + 1)] + Targets(tc);
    var jump := [Jmp(End(n)), Def(Else(n + 1))];
    Small2(Jmp(End(n)), Def(Else(n + 1)));
    One(Jmp(End(n)));
    One(Def(Else(n + 1)));
    assert Defs(jump) == [Else(n + 1)] && Targets(jump) == [End(n)];
    var mid := front + jump + ec;
    Join3(front, jump, ec);
    assert Defs(mid) == Defs(tc) + [Else(n + 1)] + Defs(ec);
    assert Targets(mid) == [Else(n + 1)] + Targets(tc) + [End(n)] + Targets(ec);
    One(Def(End(n)));
    DefsAppend(mid, [Def(End(n))]);
    TargetsAppend(mid, [Def(End(n))]);
    assert Targets(mid) + [] == Targets(mid);
  }

  /** `.Lbegin`, the condition and its branch out of the loop. */
  lemma LoopHead(cc: seq<Instr>, n: nat)
    requires Plain(cc)
    ensures Defs([Def(Begin(n))] + cc + Branch(End(n + 1))) == [Begin(n)]
    ensures Targets([Def(Begin(n))] + cc + Branch(End(n + 1))) == [End(n + 1)]
  {
    BranchLabels(cc, End(n + 1));
    One(Def(Begin(n)));
    DefsAppend([Def(Begin(n))], cc + Branch(End(n + 1)));
    TargetsAppend([Def(Begin(n))], cc + Branch(End(n + 1)));
    assert [Def(Begin(n))] + cc + Branch(End(n + 1)) == [Def(Begin(n))] + (cc + Branch(End(n + 1)));
  }

  /** The jump back to `.Lbegin` and the `.Lend` label. */
  lemma LoopTail(n: nat)
    ensures Defs([Jmp(Begin(n)), Def(End(n + 1))]) == [End(n + 1)]
    ensures Targets([Jmp(Begin(n)), Def(End(n + 1))]) == [Begin(n)]
  {
    Small2(Jmp(Begin(n)), Def(End(n + 1)));
    One(Jmp(Begin(n)));
    One(Def(End(n + 1)));
  }

  lemma WhileShape(cc: seq<Instr>, bc: seq<Instr>, n: nat)
    requires Plain(cc)
    ensures var code := [Def(Begin(n))] + cc + Branch(End(n + 1)) + bc + [Jmp(Begin(n)), Def(End(n + 1))];
            Defs(code) == [Begin(n)] + Defs(bc) + [End(n + 1)] &&
            Targets(code) == [End(n + 1)] + Targets(bc) + [Begin(n)]
  {
    LoopHead(cc, n);
    LoopTail(n);
    Join3([Def(Begin(n))] + cc + Branch(End(n + 1)), bc, [Jmp(Begin(n)), Def(End(n + 1))]);
  }

  lemma ForShape(ic: seq<Instr>, tc: seq<Instr>, bc: seq<Instr>, nc: seq<Instr>, n: nat)
    requires Defs(ic) == [] && Targets(ic) == [] && Defs(nc) == [] && Targets(nc) == []
    requires Defs(tc) == []
    ensures var code := ic + [Def(Begin(n))] + tc + bc + nc + [Jmp(Begin(n)), Def(End(n + 1))];
            Defs(code) == [Begin(n)] + Defs(bc) + [End(n + 1)] &&
            Targets(code) == Targets(tc) + Targets(bc) + [Begin(n)]
  {
    var head := ic + [Def(Begin(n))] + tc;
    One(Def(Begin(n)));
    Join3(ic, [Def(Begin(n))], tc);
    assert Defs(head) == [Begin(n)] && Targets(head) == Targets(tc);
    var mid := head + bc + nc;
    Join3(head, bc, nc);
    assert Defs(mid) == [Begin(n)] + Defs(bc) && Targets(mid) == Targets(tc) + Targets(bc);
    LoopTail(n);
    DefsAppend(mid, [Jmp(Begin(n)), Def(End(n + 1))]);
    TargetsAppend(mid, [Jmp(Begin(n)), Def(End(n + 1))]);
  }

  // ---------------------------------------------------------------------
  // From the shapes to well-labelled code

  /** A loop's two labels `Begin(n)` and `End(n + 1)` around a body labelled
      from `n + 2` on. */
  lemma LoopLabelled(code: seq<Instr>, bc: seq<Instr>, fname: string, n: nat, m: nat)
    requires m >= n + 2 && WellLabelled(bc, fname, n + 2, m)
    requires Defs(code) == [Begin(n)] + Defs(bc) + [End(n + 1)]
    requires forall l :: l in Targets(code) ==> l in Targets(bc) || l == Begin(n) || l == End(n + 1)
    ensures WellLabelled(code, fname, n, m)
  {
    UniqueJoin([Begin(n)], Defs(bc));
    UniqueJoin([Begin(n)] + Defs(bc), [End(n + 1)]);
  }

  lemma IfLabelled(code: seq<Instr>, tc: seq<Instr>, fname: string, n: nat, m: nat)
    requires m >= n + 2 && WellLabelled(tc, fname, n + 2, m)
    requires Defs(code) == Defs(tc) + [End(n)]
    requires forall l :: l in Targets(code) ==> l in Targets(tc) || l == End(n)
    ensures WellLabelled(code, fname, n, m)
  {
    UniqueJoin(Defs(tc), [End(n)]);
  }

  lemma IfElseLabelled(code: seq<Instr>, tc: seq<Instr>, ec: seq<Instr>, fname: string, n: nat, m1: nat, m: nat)
    requires n + 2 <= m1 <= m && WellLabelled(tc, fname, n + 2, m1) && WellLabelled(ec, fname, m1, m)
    requires Defs(code) == Defs(tc) + [Else(n + 1)] + Defs(ec) + [End(n)]
    requires forall l :: l in Targets(code) ==> l in Targets(tc) || l in Targets(ec) || l == Else(n + 1) || l == End(n)
    ensures WellLabelled(code, fname, n, m)
  {
    UniqueJoin(Defs(tc), [Else(n + 1)]);
    UniqueJoin(Defs(tc) + [Else(n + 1)], Defs(ec));
    UniqueJoin(Defs(tc) + [Else(n + 1)] + Defs(ec), [End(n)]);
  }

  // ---------------------------------------------------------------------
  // Statements

  /** A statement takes exactly two label numbers per `if`, `while` and
      `for` in it, from `n` on, and its code is well labelled in that range. */
  lemma {:induction false} StmtLabels(s: Stmt, fname: string, n: nat)
    requires GenStmt(s, fname, n).Ok?
    ensures var r := GenStmt(s, fname, n).value;
            r.1 == n + 2 * Controls(s) && WellLabelled(r.0, fname, n, r.1)
    decreases s, 1
  {
    match s
    case ExprStmt(e) =>
      ExprPushesOne(e);
      One(Discard);
      PlainThen(GenExpr(e).value, [Discard]);
    case ReturnStmt(e) =>
      ExprPushesOne(e);
      Small2(Pop(Rax), Jmp(ReturnOf(fname)));
      One(Pop(Rax));
      One(Jmp(ReturnOf(fname)));
      PlainThen(GenExpr(e).value, [Pop(Rax), Jmp(ReturnOf(fname))]);
    case Block(ss) =>
      StmtsLabels(ss, fname, n);
    case IfStmt(cond, t, els) =>
      IfLabels(cond, t, els, fname, n);
    case WhileStmt(cond, body) =>
      var cc := GenExpr(cond).value;
      var br := GenStmt(body, fname, n + 2).value;
      ExprPushesOne(cond);
      StmtLabels(body, fname, n + 2);
      WhileShape(cc, br.0, n);
      LoopLabelled(GenStmt(s, fname, n).value.0, br.0, fname, n, br.1);
    case ForStmt(init, test, inc, body) =>
      ForLabels(init, test, inc, body, fname, n);
  }

  lemma IfLabels(cond: Expr, t: Stmt, els: Option<Stmt>, fname: string, n: nat)
    requires GenStmt(IfStmt(cond, t, els), fname, n).Ok?
    ensures var r := GenStmt(IfStmt(cond, t, els), fname, n).value;
            r.1 == n + 2 * Controls(IfStmt(cond, t, els)) && WellLabelled(r.0, fname, n, r.1)
    decreases IfStmt(cond, t, els), 0
  {
    var code := GenStmt(IfStmt(cond, t, els), fname, n).value.0;
    var cc := GenExpr(cond).value;
    var tr := GenStmt(t, fname, n + 2).value;
    ExprPushesOne(cond);
    StmtLabels(t, fname, n + 2);
    if els.Some? {
      var er := GenStmt(els.value, fname, tr.1).value;
      StmtLabels(els.value, fname, tr.1);
      IfElseShape(cc, tr.0, er.0, n);
      IfElseLabelled(code, tr.0, er.0, fname, n, tr.1, er.1);
    } else {
      IfShape(cc, tr.0, n);
      IfLabelled(code, tr.0, fname, n, tr.1);
    }
  }

  lemma ForLabels(init: Option<Expr>, test: Option<Expr>, inc: Option<Expr>, body: Stmt, fname: string, n: nat)
    requires GenStmt(ForStmt(init, test, inc, body), fname, n).Ok?
    ensures var r := GenStmt(ForStmt(init, test, inc, body), fname, n).value;
            r.1 == n + 2 * Controls(ForStmt(init, test, inc, body)) && WellLabelled(r.0, fname, n, r.1)
    decreases ForStmt(init, test, inc, body), 0
  {
    ForUnfold(init, test, inc, body, fname, n);
    ForClauses(init, test, inc, n);
    StmtLabels(body, fname, n + 2);
    ForLabelled(GenClause(init, [Discard]).value, GenClause(test, Branch(End(n + 1))).value,
                GenStmt(body, fname, n + 2).value.0, GenClause(inc, [Discard]).value,
                fname, n, GenStmt(body, fname, n + 2).value.1);
  }

  /** The clauses of a `for` define no label; only the test jumps, to the
      loop's end. */
  lemma ForClauses(init: Option<Expr>, test: Option<Expr>, inc: Option<Expr>, n: nat)
    requires GenClause(init, [Discard]).Ok? && GenClause(test, Branch(End(n + 1))).Ok?
    requires GenClause(inc, [Discard]).Ok?
    ensures var ic := GenClause(init, [Discard]).value;
            var nc := GenClause(inc, [Discard]).value;
            Defs(ic) == [] && Targets(ic) == [] && Defs(nc) == [] && Targets(nc) == []
    ensures var tc := GenClause(test, Branch(End(n + 1))).value;
            Defs(tc) == [] && (Targets(tc) == [] || Targets(tc) == [End(n + 1)])
  {
    One(Discard);
    BranchEffect(End(n + 1));
    ClauseLabels(init, [Discard]);
    ClauseLabels(test, Branch(End(n + 1)));
    ClauseLabels(inc, [Discard]);
  }

  /** The `for` case of `GenStmt` in terms of its four parts. */
  lemma ForUnfold(init: Option<Expr>, test: Option<Expr>, inc: Option<Expr>, body: Stmt, fname: string, n: nat)
    requires GenStmt(ForStmt(init, test, inc, body), fname, n).Ok?
    ensures GenClause(init, [Discard]).Ok? && GenClause(test, Branch(End(n + 1))).Ok?
    ensures GenClause(inc, [Discard]).Ok? && GenStmt(body, fname, n + 2).Ok?
    ensures var br := GenStmt(body, fname, n + 2).value;
            GenStmt(ForStmt(init, test, inc, body), fname, n).value ==
              (GenClause(init, [Discard]).value + [Def(Begin(n))] + GenClause(test, Branch(End(n + 1))).value +
               br.0 + GenClause(inc, [Discard]).value + [Jmp(Begin(n)), Def(End(n + 1))], br.1)
  {
  }

  lemma ForLabelled(ic: seq<Instr>, tc: seq<Instr>, bc: seq<Instr>, nc: seq<Instr>, fname: string, n: nat, m: nat)
    requires m >= n + 2 && WellLabelled(bc, fname, n + 2, m)
    requires Defs(ic) == [] && Targets(ic) == [] && Defs(nc) == [] && Targets(nc) == []
    requires Defs(tc) == [] && (Targets(tc) == [] || Targets(tc) == [End(n + 1)])
    ensures WellLabelled(ic + [Def(Begin(n))] + tc + bc + nc + [Jmp(Begin(n)), Def(End(n + 1))], fname, n, m)
  {
    ForShape(ic, tc, bc, nc, n);
    LoopLabelled(ic + [Def(Begin(n))] + tc + bc + nc + [Jmp(Begin(n)), Def(End(n + 1))], bc, fname, n, m);
  }

  lemma {:induction false} StmtsLabels(ss: seq<Stmt>, fname: string, n: nat)
    requires GenStmts(ss, fname, n).Ok?
    ensures var r := GenStmts(ss, fname, n).value;
            r.1 == n + 2 * ControlsList(ss) && WellLabelled(r.0, fname, n, r.1)
    decreases ss, 0
  {
    if ss != [] {
      var r := GenStmt(ss[0], fname, n).value;
      var rest := GenStmts(ss[1..], fname, r.1).value;
      StmtLabels(ss[0], fname, n);
      StmtsLabels(ss[1..], fname, r.1);
      DefsAppend(r.0, rest.0);
      TargetsAppend(r.0, rest.0);
      UniqueJoin(Defs(r.0), Defs(rest.0));
    }
  }

  // ---------------------------------------------------------------------
  // Functions and the whole program

  lemma DistinctJoin(x: seq<Label>, y: seq<Label>)
    requires Distinct(x) && Distinct(y)
    requires forall l :: l in x ==> l !in y
    ensures Distinct(x + y)
  {
    forall i, j | 0 <= i < j < |x + y|
      ensures (x + y)[i] != (x + y)[j]
    {
      if j < |x| {
        assert (x + y)[i] == x[i] && (x + y)[j] == x[j];
      } else if i >= |x| {
        assert (x + y)[i] == y[i - |x|] && (x + y)[j] == y[j - |x|];
      } else {
        assert (x + y)[i] == x[i] && x[i] in x;
        assert (x + y)[j] == y[j - |x|] && y[j - |x|] in y;
      }
    }
  }

  lemma PrologueLabels(f: Function)
    requires |f.params| <= 6
    ensures Plain(Prologue(f) + ParamCopies(f.params))
  {
  }

  lemma EpilogueLabels(f: Function)
    ensures Defs(Epilogue(f)) == [ReturnOf(f.name)] && Targets(Epilogue(f)) == []
  {
    var rest := [MovRspRbp, Pop(Rbp), Ret];
    assert Epilogue(f)[1..] == rest;
    PlainHasNoLabels(rest);
  }

  /** A function's code defines its `.Lreturn` label exactly once, as its
      last label, after the body's labels, which are numbered from `n` up to
      the counter's new value; no label is defined twice, and every jump
      lands on a label of the same function. */
  lemma FunctionLabels(f: Function, n: nat)
    requires GenFunction(f, n).Ok?
    ensures var r := GenFunction(f, n).value;
            var d := Defs(r.0);
            r.1 == n + 2 * ControlsList(f.body) &&
            |d| > 0 && d[|d| - 1] == ReturnOf(f.name) && Numbered(d[..|d| - 1], n, r.1) &&
            UniqueNumbers(d) && Distinct(d) &&
            forall l :: l in Targets(r.0) ==> l in d
  {
    var br := GenStmts(f.body, f.name, n).value;
    var head := Prologue(f) + ParamCopies(f.params);
    StmtsLabels(f.body, f.name, n);
    PrologueLabels(f);
    EpilogueLabels(f);
    PlainThen(head, br.0);
    DefsAppend(head + br.0, Epilogue(f));
    TargetsAppend(head + br.0, Epilogue(f));
    var d := Defs(br.0) + [ReturnOf(f.name)];
    assert d[..|d| - 1] == Defs(br.0);
    UniqueJoin(Defs(br.0), [ReturnOf(f.name)]);
    NumberedDistinct(Defs(br.0), n, br.1);
    DistinctJoin(Defs(br.0), [ReturnOf(f.name)]);
  }

  /** The names of the functions, in order. */
  function Names(fs: seq<Function>): (r: seq<string>)
    ensures |r| == |fs| && forall i :: 0 <= i < |fs| ==> r[i] == fs[i].name
  {
    seq(|fs|, i requires 0 <= i < |fs| => fs[i].name)
  }

  predicate UniqueNames(fs: seq<Function>) {
    forall i, j :: 0 <= i < j < |fs| ==> fs[i].name != fs[j].name
  }

  function ProgramControls(fs: seq<Function>): nat {
    if fs == [] then 0 else ControlsList(fs[0].body) + ProgramControls(fs[1..])
  }

  /** The whole output: the label counter advances by two per control
      statement; numbered labels carry numbers from `[n, m)` that no two
      labels share, every other label is the `.Lreturn` label of one of the
      functions, and every jump lands on a label the output defines. */
  lemma {:induction false} FunctionsLabels(fs: seq<Function>, n: nat)
    requires GenFunctions(fs, n).Ok?
    ensures var r := GenFunctions(fs, n).value;
            var d := Defs(r.0);
            r.1 == n + 2 * ProgramControls(fs) &&
            (forall l :: l in d ==> if l.ReturnOf? then l.fname in Names(fs) else n <= l.n < r.1) &&
            UniqueNumbers(d) &&
            (forall l :: l in Targets(r.0) ==> l in d)
    decreases |fs|
  {
    if fs != [] {
      var r0 := GenFunction(fs[0], n).value;
      var rest := GenFunctions(fs[1..], r0.1).value;
      FunctionLabels(fs[0], n);
      FunctionsLabels(fs[1..], r0.1);
      DefsAppend(r0.0, rest.0);
      TargetsAppend(r0.0, rest.0);
      FirstFunctionLabels(Defs(r0.0), fs[0].name, n, r0.1);
      assert Names(fs) == [fs[0].name] + Names(fs[1..]);
      UniqueJoin(Defs(r0.0), Defs(rest.0));
    }
  }

  lemma FirstFunctionLabels(d: seq<Label>, name: string, n: nat, m: nat)
    requires |d| > 0 && d[|d| - 1] == ReturnOf(name) && Numbered(d[..|d| - 1], n, m)
    ensures forall l :: l in d ==> l == ReturnOf(name) || (!l.ReturnOf? && n <= l.n < m)
  {
    assert d == d[..|d| - 1] + [ReturnOf(name)];
  }

  /** With distinct function names, no label of the output is defined twice. */
  lemma {:induction false} FunctionsDistinct(fs: seq<Function>, n: nat)
    requires GenFunctions(fs, n).Ok? && UniqueNames(fs)
    ensures Distinct(Defs(GenFunctions(fs, n).value.0))
    decreases |fs|
  {
    if fs != [] {
      var r0 := GenFunction(fs[0], n).value;
      var rest := GenFunctions(fs[1..], r0.1).value;
      FunctionLabels(fs[0], n);
      FunctionsLabels(fs[1..], r0.1);
      FirstFunctionLabels(Defs(r0.0), fs[0].name, n, r0.1);
      assert UniqueNames(fs[1..]) by {
        forall i, j | 0 <= i < j < |fs[1..]|
          ensures fs[1..][i].name != fs[1..][j].name
        {
          assert fs[1..][i] == fs[i + 1] && fs[1..][j] == fs[j + 1];
        }
      }
      FunctionsDistinct(fs[1..], r0.1);
      assert fs[0].name !in Names(fs[1..]);
      DefsAppend(r0.0, rest.0);
      DistinctJoin(Defs(r0.0), Defs(rest.0));
    }
  }

  /** `codegen`'s output starting with the counter at 0: see `FunctionsLabels`. */
  lemma ProgramLabels(fs: seq<Function>)
    requires GenProgram(fs, 0).Ok? && UniqueNames(fs)
    ensures var r := GenProgram(fs, 0).value;
            Distinct(Defs(r.0)) && (forall l :: l in Targets(r.0) ==> l in Defs(r.0)) &&
            r.1 == 2 * ProgramControls(fs)
  {
    var r := GenFunctions(fs, 0).value;
    FunctionsLabels(fs, 0);
    FunctionsDistinct(fs, 0);
    One(IntelSyntax);
    DefsAppend([IntelSyntax], r.0);
    TargetsAppend([IntelSyntax], r.0);
    assert Defs([IntelSyntax] + r.0) == Defs(r.0) && Targets([IntelSyntax] + r.0) == Targets(r.0);
    assert GenProgram(fs, 0).value == ([IntelSyntax] + r.0, r.1);
  }
}
