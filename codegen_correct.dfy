/** What the code for an expression computes: run on the stack machine, it
    pushes the expression's value, leaves the memory as the expression's
    assignments leave it, and keeps `rbp`, so that local variables stay
    where they are. */
module CodegenCorrect {
  import opened Errors
  import opened Ast
  import opened Asm
  import opened Machine
  import opened CodegenSpec

  /** The value of `e` in the frame at `rbp`, and the memory after its
      assignments. Operands are evaluated left first, call arguments last
      first, as the generated code does; `None` on a division by zero. A
      call passes the values of its first six arguments. */
  function Eval(e: Expr, rbp: int, mem: map<int, int>, callee: Callee): Option<(int, map<int, int>)>
    requires GenExpr(e).Ok?
    decreases e, 1
  {
    match e
    case Num(v, _) => Some((v, mem))
    case VarRef(x, _) => Some((Read(mem, rbp - x.offset), mem))
    case Assign(l, r, _) =>
      (match Eval(r, rbp, mem, callee)
       case None => None
       case Some((x, m)) => Some((x, m[rbp - l.v.offset := x])))
    case Binary(op, a, b, _) =>
      (match Eval(a, rbp, mem, callee)
       case None => None
       case Some((x, m1)) =>
         match Eval(b, rbp, m1, callee)
         case None => None
         case Some((y, m2)) =>
           match Apply(op, x, y)
           case None => None
           case Some(v) => Some((v, m2)))
    case Call(name, args, _, _) =>
      (match EvalArgs(args, CallCount(args), rbp, mem, callee)
       case None => None
       case Some((vals, m)) => Some((callee(name, vals), m)))
    case _ => assert false; None
  }

  /** The values of the first `k` arguments, in argument order, evaluated
      from the `k`-th down to the first. */
  function EvalArgs(args: seq<Expr>, k: nat, rbp: int, mem: map<int, int>, callee: Callee): Option<(seq<int>, map<int, int>)>
    requires k <= |args| && GenArgs(args, k).Ok?
    decreases args, 0, k
  {
    if k == 0 then Some(([], mem))
    else
      match Eval(args[k - 1], rbp, mem, callee)
      case None => None
      case Some((v, m1)) =>
        match EvalArgs(args, k - 1, rbp, m1, callee)
        case None => None
        case Some((vs, m2)) => Some((vs + [v], m2))
  }

  function Reversed(xs: seq<int>): (r: seq<int>)
    ensures |r| == |xs|
    decreases |xs|
  {
    if xs == [] then [] else [xs[|xs| - 1]] + Reversed(xs[..|xs| - 1])
  }

  lemma {:induction false} ReversedCons(x: int, ys: seq<int>)
    ensures Reversed([x] + ys) == Reversed(ys) + [x]
    decreases |ys|
  {
    if ys != [] {
      var zs := [x] + ys;
      assert zs[..|zs| - 1] == [x] + ys[..|ys| - 1];
      ReversedCons(x, ys[..|ys| - 1]);
    } else {
      assert ([x] + ys)[..0] == [];
    }
  }

  /** The machine agrees with the evaluation: a fault exactly when the
      evaluation divides by zero, otherwise the value pushed on the stack
      the machine started with, the memory the evaluation ends with, and
      `rbp` unchanged. */
  predicate Agrees(r: Outcome, st: State, ev: Option<(int, map<int, int>)>) {
    match ev
    case None => r == Fault(DivideError)
    case Some((v, m)) => r.Done? && r.st.stack == st.stack + [v] && r.st.mem == m && Get(r.st, Rbp) == Get(st, Rbp)
  }

  // ---------------------------------------------------------------------
  // The fixed pieces

  lemma RunOne(i: Instr, st: State, callee: Callee)
    ensures Run([i], st, callee) == Step(st, i, callee)
  {
    assert [i][1..] == [];
  }

  /** `gen_addr` of a variable pushes its slot address, `rbp - offset`. */
  lemma AddrCorrect(e: Expr, st: State, callee: Callee)
    requires e.VarRef?
    ensures var r := Run(GenAddr(e).value, st, callee);
            r.Done? && r.st.stack == st.stack + [Get(st, Rbp) - e.v.offset] &&
            r.st.mem == st.mem && Get(r.st, Rbp) == Get(st, Rbp)
  {
    var st1 := SetReg(st, Rax, Get(st, Rbp) - e.v.offset);
    assert Step(st, LeaLocal(e.v.offset), callee) == Done(st1);
    assert [LeaLocal(e.v.offset), Push(Rax)][1..] == [Push(Rax)];
    RunOne(Push(Rax), st1, callee);
  }

  /** `load` replaces an address on top of the stack by the value stored there. */
  lemma LoadCorrect(st: State, s: seq<int>, a: int, callee: Callee)
    requires st.stack == s + [a]
    ensures var r := Run(LoadCode, st, callee);
            r.Done? && r.st.stack == s + [Read(st.mem, a)] && r.st.mem == st.mem && Get(r.st, Rbp) == Get(st, Rbp)
  {
    assert (s + [a])[..|s|] == s;
    var st1 := SetReg(st.(stack := s), Rax, a);
    assert Step(st, Pop(Rax), callee) == Done(st1);
    var st2 := SetReg(st1, Rax, Read(st.mem, a));
    assert Step(st1, Load, callee) == Done(st2);
    assert LoadCode[1..] == [Load, Push(Rax)];
    assert [Load, Push(Rax)][1..] == [Push(Rax)];
    RunOne(Push(Rax), st2, callee);
  }

  /** `store` writes the value on top of the stack to the address below it
      and leaves the value in place of the two. */
  lemma StoreCorrect(st: State, s: seq<int>, a: int, x: int, callee: Callee)
    requires st.stack == s + [a, x]
    ensures var r := Run(StoreCode, st, callee);
            r.Done? && r.st.stack == s + [x] && r.st.mem == st.mem[a := x] && Get(r.st, Rbp) == Get(st, Rbp)
  {
    PopOperands(st, s, a, x, callee);
    var st2 := Run([Pop(Rdi), Pop(Rax)], st, callee).st;
    var st3 := st2.(mem := st2.mem[a := x]);
    assert Step(st2, Store, callee) == Done(st3);
    assert [Store, Push(Rdi)][1..] == [Push(Rdi)];
    RunOne(Push(Rdi), st3, callee);
    assert StoreCode == [Pop(Rdi), Pop(Rax)] + [Store, Push(Rdi)];
    RunAppend([Pop(Rdi), Pop(Rax)], [Store, Push(Rdi)], st, callee);
  }

  /** Popping `k` pushed argument values, the last pushed into `rdi` first:
      argument `i` lands in argument register `i`; no other register and
      no memory cell changes. */
  lemma {:induction false} PopsCorrect(st: State, s: seq<int>, vals: seq<int>, j: nat, callee: Callee)
    requires |vals| <= 6 && j <= |vals| && st.stack == s + Reversed(vals[j..])
    ensures var r := Run(PopArgs(|vals|)[j..], st, callee);
            r.Done? && r.st.stack == s && r.st.mem == st.mem &&
            (forall i :: j <= i < |vals| ==> Get(r.st, ArgRegs[i]) == vals[i]) &&
            (forall q :: q !in ArgRegs[j..|vals|] ==> Get(r.st, q) == Get(st, q))
    decreases |vals| - j
  {
    var code := PopArgs(|vals|)[j..];
    if j == |vals| {
      assert code == [];
    } else {
      var st1 := PopFirst(st, s, vals, j, callee);
      PopsCorrect(st1, s, vals, j + 1, callee);
      RegsSplit(j, |vals|);
    }
  }

  /** The registers `ArgRegs[j..k]` are `ArgRegs[j]` and, apart from it,
      `ArgRegs[j + 1..k]`. */
  lemma RegsSplit(j: nat, k: nat)
    requires j < k <= 6
    ensures ArgRegs[j] !in ArgRegs[j + 1..k]
    ensures forall q :: q in ArgRegs[j..k] <==> q == ArgRegs[j] || q in ArgRegs[j + 1..k]
  {
    ArgRegsDistinct();
    assert ArgRegs[j..k] == [ArgRegs[j]] + ArgRegs[j + 1..k];
  }

  /** The first of the pops: argument `j`, on top of the stack, goes to
      argument register `j`. */
  lemma PopFirst(st: State, s: seq<int>, vals: seq<int>, j: nat, callee: Callee) returns (st1: State)
    requires |vals| <= 6 && j < |vals| && st.stack == s + Reversed(vals[j..])
    ensures st1.stack == s + Reversed(vals[j + 1..]) && st1.mem == st.mem
    ensures Get(st1, ArgRegs[j]) == vals[j] && forall q :: q != ArgRegs[j] ==> Get(st1, q) == Get(st, q)
    ensures Run(PopArgs(|vals|)[j..], st, callee) == Run(PopArgs(|vals|)[j + 1..], st1, callee)
  {
    var code := PopArgs(|vals|)[j..];
    assert vals[j..] == [vals[j]] + vals[j + 1..];
    ReversedCons(vals[j], vals[j + 1..]);
    var rest := s + Reversed(vals[j + 1..]);
    assert st.stack == rest + [vals[j]];
    assert (rest + [vals[j]])[..|rest|] == rest;
    st1 := SetReg(st.(stack := rest), ArgRegs[j], vals[j]);
    assert Step(st, Pop(ArgRegs[j]), callee) == Done(st1);
    assert code[0] == Pop(ArgRegs[j]) && code[1..] == PopArgs(|vals|)[j + 1..];
  }

  /** `mov rax, 0`, the call, `push rax`: the callee sees the argument
      registers' values and its result is pushed. */
  lemma CallTailCorrect(name: string, vals: seq<int>, st: State, callee: Callee)
    requires |vals| <= 6 && forall i :: 0 <= i < |vals| ==> Get(st, ArgRegs[i]) == vals[i]
    ensures var r := Run([MovRaxZero, CallF(name, |vals|), Push(Rax)], st, callee);
            r.Done? && r.st.stack == st.stack + [callee(name, vals)] &&
            r.st.mem == st.mem && Get(r.st, Rbp) == Get(st, Rbp)
  {
    ArgRegsDistinct();
    var st1 := SetReg(st, Rax, 0);
    assert Step(st, MovRaxZero, callee) == Done(st1);
    assert ArgValues(st1, |vals|) == vals;
    var st2 := SetReg(st1, Rax, callee(name, vals));
    assert Step(st1, CallF(name, |vals|), callee) == Done(st2);
    assert [MovRaxZero, CallF(name, |vals|), Push(Rax)][1..] == [CallF(name, |vals|), Push(Rax)];
    assert [CallF(name, |vals|), Push(Rax)][1..] == [Push(Rax)];
    RunOne(Push(Rax), st2, callee);
  }

  // ---------------------------------------------------------------------
  // The theorem

  /** Running an expression's code agrees with evaluating the expression. */
  lemma {:induction false} ExprCorrect(e: Expr, st: State, callee: Callee)
    requires GenExpr(e).Ok?
    ensures Agrees(Run(GenExpr(e).value, st, callee), st, Eval(e, Get(st, Rbp), st.mem, callee))
    decreases e, 1
  {
    match e
    case Num(v, _) =>
      RunOne(PushImm(v), st, callee);
    case VarRef(_, _) =>
      VarCorrect(e, st, callee);
    case Assign(_, _, _) =>
      AssignCorrect(e, st, callee);
    case Binary(_, _, _, _) =>
      BinaryCorrect(e, st, callee);
    case Call(_, _, _, _) =>
      CallCorrect(e, st, callee);
  }

  lemma VarCorrect(e: Expr, st: State, callee: Callee)
    requires e.VarRef?
    ensures GenExpr(e).Ok? && Agrees(Run(GenExpr(e).value, st, callee), st, Eval(e, Get(st, Rbp), st.mem, callee))
  {
    AddrCorrect(e, st, callee);
    var st1 := Run(GenAddr(e).value, st, callee).st;
    LoadCorrect(st1, st.stack, Get(st, Rbp) - e.v.offset, callee);
    RunAppend(GenAddr(e).value, LoadCode, st, callee);
  }

  lemma AssignCorrect(e: Expr, st: State, callee: Callee)
    requires e.Assign? && GenExpr(e).Ok?
    ensures Agrees(Run(GenExpr(e).value, st, callee), st, Eval(e, Get(st, Rbp), st.mem, callee))
    decreases e, 0
  {
    var a := GenAddr(e.lhs).value;
    var c := GenExpr(e.rhs).value;
    AddrCorrect(e.lhs, st, callee);
    var st1 := Run(a, st, callee).st;
    ExprCorrect(e.rhs, st1, callee);
    AssignCompose(a, c, st, st1, Get(st, Rbp) - e.lhs.v.offset, Eval(e.rhs, Get(st, Rbp), st.mem, callee), callee);
  }

  /** The address, then the value, then `store`. */
  lemma AssignCompose(a: seq<Instr>, c: seq<Instr>, st: State, st1: State, addr: int,
                      ev: Option<(int, map<int, int>)>, callee: Callee)
    requires Run(a, st, callee) == Done(st1) && st1.stack == st.stack + [addr]
    requires st1.mem == st.mem && Get(st1, Rbp) == Get(st, Rbp)
    requires Agrees(Run(c, st1, callee), st1, ev)
    ensures match ev
            case None => Run(a + c + StoreCode, st, callee) == Fault(DivideError)
            case Some((x, m)) => Agrees(Run(a + c + StoreCode, st, callee), st, Some((x, m[addr := x])))
  {
    RunAppend(a + c, StoreCode, st, callee);
    RunAppend(a, c, st, callee);
    match ev
    case None =>
    case Some((x, m)) =>
      var st2 := Run(c, st1, callee).st;
      StoreCorrect(st2, st.stack, addr, x, callee);
  }

  lemma BinaryCorrect(e: Expr, st: State, callee: Callee)
    requires e.Binary? && GenExpr(e).Ok?
    ensures Agrees(Run(GenExpr(e).value, st, callee), st, Eval(e, Get(st, Rbp), st.mem, callee))
    decreases e, 0
  {
    var ca := GenExpr(e.lhs).value;
    var cb := GenExpr(e.rhs).value;
    var rbp := Get(st, Rbp);
    ExprCorrect(e.lhs, st, callee);
    RunAppend(ca + cb, OperateCode(e.op), st, callee);
    RunAppend(ca, cb, st, callee);
    match Eval(e.lhs, rbp, st.mem, callee)
    case None =>
    case Some((x, m1)) =>
      var st1 := Run(ca, st, callee).st;
      ExprCorrect(e.rhs, st1, callee);
      match Eval(e.rhs, rbp, m1, callee)
      case None =>
      case Some((y, m2)) =>
        var st2 := Run(cb, st1, callee).st;
        Combine(e.op, st2, st.stack, x, y, callee);
  }

  /** The first `k` arguments' code pushes their values, the `k`-th
      deepest and the first on top. */
  lemma {:induction false} ArgsCorrect(args: seq<Expr>, k: nat, st: State, callee: Callee)
    requires k <= |args| && GenArgs(args, k).Ok?
    ensures var r := Run(GenArgs(args, k).value, st, callee);
            match EvalArgs(args, k, Get(st, Rbp), st.mem, callee)
            case None => r == Fault(DivideError)
            case Some((vals, m)) => |vals| == k && r.Done? && r.st.stack == st.stack + Reversed(vals) &&
                                    r.st.mem == m && Get(r.st, Rbp) == Get(st, Rbp)
    decreases args, 0, k
  {
    if k > 0 {
      var c := GenExpr(args[k - 1]).value;
      var rest := GenArgs(args, k - 1).value;
      var rbp := Get(st, Rbp);
      ExprCorrect(args[k - 1], st, callee);
      RunAppend(c, rest, st, callee);
      match Eval(args[k - 1], rbp, st.mem, callee)
      case None =>
      case Some((v, m1)) =>
        var st1 := Run(c, st, callee).st;
        ArgsCorrect(args, k - 1, st1, callee);
        match EvalArgs(args, k - 1, rbp, m1, callee)
        case None =>
        case Some((vs, m2)) =>
          assert (vs + [v])[..|vs|] == vs;
          assert Reversed(vs + [v]) == [v] + Reversed(vs);
    } else {
      assert Reversed([]) == [];
    }
  }

  lemma CallCorrect(e: Expr, st: State, callee: Callee)
    requires e.Call? && GenExpr(e).Ok?
    ensures Agrees(Run(GenExpr(e).value, st, callee), st, Eval(e, Get(st, Rbp), st.mem, callee))
    decreases e, 0
  {
    var k := CallCount(e.args);
    var c := GenArgs(e.args, k).value;
    var tail := [MovRaxZero, CallF(e.name, k), Push(Rax)];
    ArgsCorrect(e.args, k, st, callee);
    RunAppend(c + PopArgs(k), tail, st, callee);
    RunAppend(c, PopArgs(k), st, callee);
    match EvalArgs(e.args, k, Get(st, Rbp), st.mem, callee)
    case None =>
    case Some((vals, m)) =>
      var st1 := Run(c, st, callee).st;
      assert vals[0..] == vals && PopArgs(k)[0..] == PopArgs(k);
      PopsCorrect(st1, st.stack, vals, 0, callee);
      var st2 := Run(PopArgs(k), st1, callee).st;
      ArgRegsDistinct();
      assert Rbp !in ArgRegs[0..k];
      CallTailCorrect(e.name, vals, st2, callee);
  }
}
