/** The x86-64 instructions the code generators emit, one constructor per
    emitted line (the assembly text itself is not modelled), with the
    number of 8-byte values each one pushes onto the machine stack. */
module Asm {
  import opened Ast

  datatype Reg = Rax | Rdi | Rsi | Rdx | Rcx | R8 | R9 | Rbp

  /** The argument registers in calling-convention order (`argreg`). */
  const ArgRegs: seq<Reg> := [Rdi, Rsi, Rdx, Rcx, R8, R9]

  /** The six argument registers are different registers, none of them `rax` or `rbp`. */
  lemma ArgRegsDistinct()
    ensures forall a, b :: 0 <= a < b < 6 ==> ArgRegs[a] != ArgRegs[b]
    ensures forall a :: 0 <= a < 6 ==> ArgRegs[a] != Rbp && ArgRegs[a] != Rax
  {
    assert ArgRegs == [Rdi, Rsi, Rdx, Rcx, R8, R9];
  }

  /** The conditions of `sete`, `setne`, `setl` and `setle`. */
  datatype Cond = IfEq | IfNe | IfLt | IfLe

  /** `.Lbegin<n>`, `.Lend<n>`, `.Lelse<n>` and `.Lreturn<function name>`. */
  datatype Label = Begin(n: nat) | End(n: nat) | Else(n: nat) | ReturnOf(fname: string)

  datatype Instr =
    | PushImm(v: int)                 // push <n>
    | Push(r: Reg)                    // push <reg>
    | Pop(r: Reg)                     // pop <reg>
    | LeaLocal(offset: int)           // lea rax, [rbp-<offset>]
    | Load                            // mov rax, [rax]
    | Store                           // mov [rax], rdi
    | Discard                         // add rsp, 8
    | AddRaxRdi                       // add rax, rdi
    | SubRaxRdi                       // sub rax, rdi
    | IMulRaxRdi                      // imul rax, rdi
    | Cqo                             // cqo
    | IDivRdi                         // idiv rdi
    | CmpRaxRdi                       // cmp rax, rdi
    | Set(c: Cond)                    // set<cc> al
    | MovzbRaxAl                      // movzb rax, al
    | CmpRaxZero                      // cmp rax, 0
    | MovRaxZero                      // mov rax, 0
    | Je(target: Label)               // je <label>
    | Jmp(target: Label)              // jmp <label>
    | Def(defined: Label)             // <label>:
    | CallF(name: string, argc: nat)  // call <name>, passing the first argc argument registers
    | IntelSyntax                     // .intel_syntax noprefix
    | Global(name: string)            // .global <name>
    | FuncLabel(name: string)         // <name>:
    | MovRbpRsp                       // mov rbp, rsp
    | SubRsp(n: int)                  // sub rsp, <n>
    | StoreParam(offset: int, r: Reg) // mov [rbp-<offset>], <reg>
    | MovRspRbp                       // mov rsp, rbp
    | Ret                             // ret

  /** The net number of values an instruction pushes onto the operand stack. */
  function Effect(i: Instr): int {
    match i
    case PushImm(_) => 1
    case Push(_) => 1
    case Pop(_) => -1
    case Discard => -1
    case _ => 0
  }

  /** The net stack effect of a straight run through `code`. */
  function Delta(code: seq<Instr>): int
    decreases |code|
  {
    if code == [] then 0 else Effect(code[0]) + Delta(code[1..])
  }

  lemma {:induction false} DeltaAppend(a: seq<Instr>, b: seq<Instr>)
    ensures Delta(a + b) == Delta(a) + Delta(b)
    decreases |a|
  {
    if a == [] {
      assert a + b == b;
    } else {
      assert (a + b)[1..] == a[1..] + b;
      DeltaAppend(a[1..], b);
    }
  }

  /** The labels `code` defines, in order. */
  function Defs(code: seq<Instr>): seq<Label>
    decreases |code|
  {
    if code == [] then []
    else (if code[0].Def? then [code[0].defined] else []) + Defs(code[1..])
  }

  lemma {:induction false} DefsAppend(a: seq<Instr>, b: seq<Instr>)
    ensures Defs(a + b) == Defs(a) + Defs(b)
    decreases |a|
  {
    if a == [] {
      assert a + b == b;
    } else {
      var h := if a[0].Def? then [a[0].defined] else [];
      assert (a + b)[0] == a[0] && (a + b)[1..] == a[1..] + b;
      assert Defs(a + b) == h + Defs(a[1..] + b);
      DefsAppend(a[1..], b);
      assert h + (Defs(a[1..]) + Defs(b)) == (h + Defs(a[1..])) + Defs(b);
    }
  }

  /** The labels `code` jumps to (`je` and `jmp`), in order. */
  function Targets(code: seq<Instr>): seq<Label>
    decreases |code|
  {
    if code == [] then []
    else (if code[0].Je? || code[0].Jmp? then [code[0].target] else []) + Targets(code[1..])
  }

  lemma {:induction false} TargetsAppend(a: seq<Instr>, b: seq<Instr>)
    ensures Targets(a + b) == Targets(a) + Targets(b)
    decreases |a|
  {
    if a == [] {
      assert a + b == b;
    } else {
      var h := if a[0].Je? || a[0].Jmp? then [a[0].target] else [];
      assert (a + b)[0] == a[0] && (a + b)[1..] == a[1..] + b;
      assert Targets(a + b) == h + Targets(a[1..] + b);
      TargetsAppend(a[1..], b);
      assert h + (Targets(a[1..]) + Targets(b)) == (h + Targets(a[1..])) + Targets(b);
    }
  }

  /** No label occurs twice. */
  predicate Distinct(ls: seq<Label>) {
    forall i, j :: 0 <= i < j < |ls| ==> ls[i] != ls[j]
  }

  /** The instructions of the `switch` on a binary node's kind, which combine
      `rax` (left operand) and `rdi` (right operand) into `rax`. */
  function BinOpCode(op: BinOp): seq<Instr> {
    match op
    case Add => [AddRaxRdi]
    case Sub => [SubRaxRdi]
    case Mul => [IMulRaxRdi]
    case Div => [Cqo, IDivRdi]
    case Eq => [CmpRaxRdi, Set(IfEq), MovzbRaxAl]
    case Ne => [CmpRaxRdi, Set(IfNe), MovzbRaxAl]
    case Lt => [CmpRaxRdi, Set(IfLt), MovzbRaxAl]
    case Le => [CmpRaxRdi, Set(IfLe), MovzbRaxAl]
  }

  /** The tail of a binary node's code: `pop rdi`, `pop rax`, the operation, `push rax`. */
  function OperateCode(op: BinOp): seq<Instr> {
    [Pop(Rdi), Pop(Rax)] + BinOpCode(op) + [Push(Rax)]
  }

  /** Code made only of instructions that are neither labels nor jumps. */
  predicate Plain(code: seq<Instr>) {
    forall i :: 0 <= i < |code| ==> !code[i].Def? && !code[i].Je? && !code[i].Jmp?
  }

  lemma {:induction false} PlainHasNoLabels(code: seq<Instr>)
    requires Plain(code)
    ensures Defs(code) == [] && Targets(code) == []
    decreases |code|
  {
    if code != [] {
      PlainHasNoLabels(code[1..]);
    }
  }

  /** Code none of whose instructions pushes or pops. */
  predicate Quiet(code: seq<Instr>) {
    forall i :: 0 <= i < |code| ==> Effect(code[i]) == 0
  }

  lemma {:induction false} QuietDelta(code: seq<Instr>)
    requires Quiet(code)
    ensures Delta(code) == 0
    decreases |code|
  {
    if code != [] {
      QuietDelta(code[1..]);
    }
  }

  /** The operation itself neither pushes nor pops, defines no label and jumps nowhere. */
  lemma BinOpCodeNeutral(op: BinOp)
    ensures Delta(BinOpCode(op)) == 0 && Defs(BinOpCode(op)) == [] && Targets(BinOpCode(op)) == []
  {
    PlainHasNoLabels(BinOpCode(op));
    QuietDelta(BinOpCode(op));
  }

  /** The tail pops two values and pushes one. */
  lemma OperateCodeEffect(op: BinOp)
    ensures Delta(OperateCode(op)) == -1 && Plain(OperateCode(op))
  {
    BinOpCodeNeutral(op);
    DeltaAppend([Pop(Rdi), Pop(Rax)] + BinOpCode(op), [Push(Rax)]);
    DeltaAppend([Pop(Rdi), Pop(Rax)], BinOpCode(op));
    assert [Pop(Rdi), Pop(Rax)][1..] == [Pop(Rax)];
    assert [Pop(Rax)][1..] == [] && [Push(Rax)][1..] == [];
  }
}
