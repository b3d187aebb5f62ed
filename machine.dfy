/** A stack machine for the straight-line code of one expression: the
    operand stack, the registers the generated code uses, the flags of the
    last comparison, and memory. Branches, calls into the frame set-up and
    `ret` are outside what it runs. Integers are unbounded. */
module Machine {
  import opened Errors
  import opened Ast
  import opened Asm

  /** `al` is kept as its own register: the code only ever writes it with
      `set<cc>` and reads it with `movzb` right after. */
  datatype State = State(stack: seq<int>, regs: map<Reg, int>, al: int, flags: (int, int), mem: map<int, int>)

  function Get(st: State, r: Reg): int {
    if r in st.regs then st.regs[r] else 0
  }

  function SetReg(st: State, r: Reg, v: int): (r': State)
    ensures Get(r', r) == v && forall q :: q != r ==> Get(r', q) == Get(st, q)
    ensures r'.stack == st.stack && r'.mem == st.mem
  {
    st.(regs := st.regs[r := v])
  }

  /** Memory reads of never-written cells give 0. */
  function Read(mem: map<int, int>, a: int): int {
    if a in mem then mem[a] else 0
  }

  /** The result of a function call, given its name and the values of the
      argument registers it reads. */
  type Callee = (string, seq<int>) -> int

  datatype Fault = StackUnderflow | DivideError | NotStraightLine

  datatype Outcome = Done(st: State) | Fault(fault: Fault)

  /** C's `/` (and `idiv`): the quotient rounded toward zero. */
  function TruncDiv(a: int, b: int): int
    requires b != 0
  {
    var q := (if a < 0 then -a else a) / (if b < 0 then -b else b);
    if (a < 0) != (b < 0) then -q else q
  }

  function TruncRem(a: int, b: int): int
    requires b != 0
  {
    a - b * TruncDiv(a, b)
  }

  /** The quotient is C's: the remainder it leaves is smaller than the
      divisor in magnitude and is zero or has the sign of the dividend. */
  lemma TruncDivRounds(a: int, b: int)
    requires b != 0
    ensures var r := a - b * TruncDiv(a, b);
            -(if b < 0 then -b else b) < r < (if b < 0 then -b else b) &&
            (r == 0 || (r < 0) == (a < 0))
  {
    var aa, bb := (if a < 0 then -a else a), (if b < 0 then -b else b);
    var q, m := aa / bb, aa % bb;
    assert aa == bb * q + m && 0 <= m < bb;
    if a < 0 && b < 0 {
      assert a - b * q == -m;
    } else if a < 0 {
      assert a - b * (-q) == -m;
    } else if b < 0 {
      assert a - b * (-q) == m;
    } else {
      assert a - b * q == m;
    }
  }

  function Holds(c: Cond, x: int, y: int): bool {
    match c
    case IfEq => x == y
    case IfNe => x != y
    case IfLt => x < y
    case IfLe => x <= y
  }

  /** The values of the first `k` argument registers. */
  function ArgValues(st: State, k: nat): (r: seq<int>)
    requires k <= 6
    ensures |r| == k && forall i :: 0 <= i < k ==> r[i] == Get(st, ArgRegs[i])
  {
    seq(k, i requires 0 <= i < k => Get(st, ArgRegs[i]))
  }

  function Step(st: State, i: Instr, callee: Callee): Outcome {
    match i
    case PushImm(v) => Done(st.(stack := st.stack + [v]))
    case Push(r) => Done(st.(stack := st.stack + [Get(st, r)]))
    case Pop(r) =>
      if st.stack == [] then Fault(StackUnderflow)
      else Done(SetReg(st.(stack := st.stack[..|st.stack| - 1]), r, st.stack[|st.stack| - 1]))
    case Discard =>
      if st.stack == [] then Fault(StackUnderflow) else Done(st.(stack := st.stack[..|st.stack| - 1]))
    case LeaLocal(off) => Done(SetReg(st, Rax, Get(st, Rbp) - off))
    case Load => Done(SetReg(st, Rax, Read(st.mem, Get(st, Rax))))
    case Store => Done(st.(mem := st.mem[Get(st, Rax) := Get(st, Rdi)]))
    case AddRaxRdi => Done(SetReg(st, Rax, Get(st, Rax) + Get(st, Rdi)))
    case SubRaxRdi => Done(SetReg(st, Rax, Get(st, Rax) - Get(st, Rdi)))
    case IMulRaxRdi => Done(SetReg(st, Rax, Get(st, Rax) * Get(st, Rdi)))
    case Cqo => Done(SetReg(st, Rdx, if Get(st, Rax) < 0 then -1 else 0))
    case IDivRdi =>
      var x, y := Get(st, Rax), Get(st, Rdi);
      if y == 0 then Fault(DivideError)
      else Done(SetReg(SetReg(st, Rax, TruncDiv(x, y)), Rdx, TruncRem(x, y)))
    case CmpRaxRdi => Done(st.(flags := (Get(st, Rax), Get(st, Rdi))))
    case CmpRaxZero => Done(st.(flags := (Get(st, Rax), 0)))
    case Set(c) => Done(st.(al := if Holds(c, st.flags.0, st.flags.1) then 1 else 0))
    case MovzbRaxAl => Done(SetReg(st, Rax, st.al))
    case MovRaxZero => Done(SetReg(st, Rax, 0))
    case CallF(name, argc) =>
      if argc > 6 then Fault(NotStraightLine)
      else Done(SetReg(st, Rax, callee(name, ArgValues(st, argc))))
    case _ => Fault(NotStraightLine)
  }

  /** Runs `code` from its first instruction to its last; the first fault stops it. */
  function Run(code: seq<Instr>, st: State, callee: Callee): Outcome
    decreases |code|
  {
    if code == [] then Done(st)
    else
      match Step(st, code[0], callee)
      case Fault(f) => Fault(f)
      case Done(st1) => Run(code[1..], st1, callee)
  }

  lemma {:induction false} RunAppend(a: seq<Instr>, b: seq<Instr>, st: State, callee: Callee)
    ensures Run(a + b, st, callee) ==
            match Run(a, st, callee)
            case Fault(f) => Fault(f)
            case Done(st1) => Run(b, st1, callee)
    decreases |a|
  {
    if a == [] {
      assert a + b == b;
    } else {
      assert (a + b)[1..] == a[1..] + b;
      match Step(st, a[0], callee)
      case Fault(_) =>
      case Done(st1) => RunAppend(a[1..], b, st1, callee);
    }
  }

  /** The value a binary node computes from its operands, as C defines it for
      `int` (comparisons give 0 or 1); `None` for a division by zero. */
  function Apply(op: BinOp, x: int, y: int): Option<int> {
    match op
    case Add => Some(x + y)
    case Sub => Some(x - y)
    case Mul => Some(x * y)
    case Div => if y == 0 then None else Some(TruncDiv(x, y))
    case Eq => Some(if x == y then 1 else 0)
    case Ne => Some(if x != y then 1 else 0)
    case Lt => Some(if x < y then 1 else 0)
    case Le => Some(if x <= y then 1 else 0)
  }

  /** `pop rdi; pop rax` with the left operand below the right one. */
  lemma PopOperands(st: State, s: seq<int>, x: int, y: int, callee: Callee)
    requires st.stack == s + [x, y]
    ensures var r := Run([Pop(Rdi), Pop(Rax)], st, callee);
            r.Done? && r.st.stack == s && Get(r.st, Rax) == x && Get(r.st, Rdi) == y &&
            r.st.mem == st.mem && Get(r.st, Rbp) == Get(st, Rbp)
  {
    var st1 := SetReg(st.(stack := s + [x]), Rdi, y);
    assert (s + [x, y])[..|s| + 1] == s + [x];
    assert Step(st, Pop(Rdi), callee) == Done(st1);
    var st2 := SetReg(st1.(stack := s), Rax, x);
    assert (s + [x])[..|s|] == s;
    assert Step(st1, Pop(Rax), callee) == Done(st2);
    assert [Pop(Rdi), Pop(Rax)][1..] == [Pop(Rax)];
    assert [Pop(Rax)][1..] == [];
  }

  lemma OperateDiv(st: State, callee: Callee)
    ensures var r := Run([Cqo, IDivRdi], st, callee);
            match Apply(Div, Get(st, Rax), Get(st, Rdi))
            case None => r == Fault(DivideError)
            case Some(v) => r.Done? && r.st.stack == st.stack && Get(r.st, Rax) == v &&
                            r.st.mem == st.mem && Get(r.st, Rbp) == Get(st, Rbp)
  {
    var x, y := Get(st, Rax), Get(st, Rdi);
    var st1 := SetReg(st, Rdx, if x < 0 then -1 else 0);
    assert Step(st, Cqo, callee) == Done(st1);
    assert Get(st1, Rax) == x && Get(st1, Rdi) == y;
    assert [Cqo, IDivRdi][1..] == [IDivRdi];
    assert [IDivRdi][1..] == [];
    if y != 0 {
      var st2 := SetReg(SetReg(st1, Rax, TruncDiv(x, y)), Rdx, TruncRem(x, y));
      assert Step(st1, IDivRdi, callee) == Done(st2);
    }
  }

  lemma OperateCompare(c: Cond, st: State, callee: Callee)
    ensures var r := Run([CmpRaxRdi, Set(c), MovzbRaxAl], st, callee);
            r.Done? && r.st.stack == st.stack && r.st.mem == st.mem && Get(r.st, Rbp) == Get(st, Rbp) &&
            Get(r.st, Rax) == if Holds(c, Get(st, Rax), Get(st, Rdi)) then 1 else 0
  {
    var st1 := st.(flags := (Get(st, Rax), Get(st, Rdi)));
    var st2 := st1.(al := if Holds(c, Get(st, Rax), Get(st, Rdi)) then 1 else 0);
    var st3 := SetReg(st2, Rax, st2.al);
    assert Step(st, CmpRaxRdi, callee) == Done(st1);
    assert Step(st1, Set(c), callee) == Done(st2);
    assert Step(st2, MovzbRaxAl, callee) == Done(st3);
    assert [CmpRaxRdi, Set(c), MovzbRaxAl][1..] == [Set(c), MovzbRaxAl];
    assert [Set(c), MovzbRaxAl][1..] == [MovzbRaxAl];
    assert [MovzbRaxAl][1..] == [];
    assert Run([MovzbRaxAl], st2, callee) == Done(st3);
    assert Run([Set(c), MovzbRaxAl], st1, callee) == Done(st3);
  }

  /** The operation leaves `Apply(op, rax, rdi)` in `rax`. */
  lemma Operate(op: BinOp, st: State, callee: Callee)
    ensures var r := Run(BinOpCode(op), st, callee);
            match Apply(op, Get(st, Rax), Get(st, Rdi))
            case None => r == Fault(DivideError)
            case Some(v) => r.Done? && r.st.stack == st.stack && Get(r.st, Rax) == v &&
                            r.st.mem == st.mem && Get(r.st, Rbp) == Get(st, Rbp)
  {
    match op
    case Div => OperateDiv(st, callee);
    case Eq => OperateCompare(IfEq, st, callee);
    case Ne => OperateCompare(IfNe, st, callee);
    case Lt => OperateCompare(IfLt, st, callee);
    case Le => OperateCompare(IfLe, st, callee);
    case _ => assert BinOpCode(op)[1..] == [];
  }

  /** The tail of a binary node's code: with the left operand's value below
      the right one's on the stack, `pop rdi; pop rax; <op>; push rax`
      replaces the two by their combination, or faults on a division by zero.
      Memory and `rbp` are untouched. */
  lemma Combine(op: BinOp, st: State, s: seq<int>, x: int, y: int, callee: Callee)
    requires st.stack == s + [x, y]
    ensures var r := Run(OperateCode(op), st, callee);
            match Apply(op, x, y)
            case None => r == Fault(DivideError)
            case Some(v) => r.Done? && r.st.stack == s + [v] && r.st.mem == st.mem && Get(r.st, Rbp) == Get(st, Rbp)
  {
    var pops := [Pop(Rdi), Pop(Rax)];
    PopOperands(st, s, x, y, callee);
    var st2 := Run(pops, st, callee).st;
    Operate(op, st2, callee);
    RunAppend(pops + BinOpCode(op), [Push(Rax)], st, callee);
    RunAppend(pops, BinOpCode(op), st, callee);
    assert [Push(Rax)][1..] == [];
  }
}
