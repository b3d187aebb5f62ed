/** The code generator and driver of ycc.c: stack code for an arithmetic
    tree, wrapped into a `main` that returns the expression's value. The
    code is proved to compute the value C gives the expression. */
module YccGen {
  import opened Errors
  import Ast
  import opened Asm
  import opened Machine
  import opened YccLex
  import Lexer = Tokenize
  import opened YccParse

  /** `gen`: a number is pushed; a binary node pushes its operands, left
      first, and replaces them by their combination. Every kind of node has
      one of these two cases, so the "Invalid node" default is never taken. */
  function Gen(n: Node): seq<Instr> {
    match n
    case Number(v) => [PushImm(v)]
    case Binary(op, l, r) => Gen(l) + Gen(r) + OperateCode(op)
  }

  /** The value of a tree as C computes it, with comparisons giving 0 or 1
      and `/` rounding toward zero; `None` when a division by zero is
      reached. */
  function Eval(n: Node): Option<int> {
    match n
    case Number(v) => Some(v)
    case Binary(op, l, r) =>
      match Eval(l)
      case None => None
      case Some(x) =>
        match Eval(r)
        case None => None
        case Some(y) => Apply(op, x, y)
  }

  /** The code of any tree pushes exactly one value. */
  lemma {:induction false} GenPushesOne(n: Node)
    ensures Delta(Gen(n)) == 1
  {
    match n
    case Number(v) =>
    case Binary(op, l, r) =>
      GenPushesOne(l);
      GenPushesOne(r);
      OperateCodeEffect(op);
      DeltaAppend(Gen(l) + Gen(r), OperateCode(op));
      DeltaAppend(Gen(l), Gen(r));
  }

  /** Running a tree's code pushes the tree's value on top of whatever was on
      the stack, leaving memory alone; a division by zero faults. */
  lemma {:induction false} GenCorrect(n: Node, st: State, callee: Callee)
    ensures var r := Run(Gen(n), st, callee);
            match Eval(n)
            case None => r == Fault(DivideError)
            case Some(v) => r.Done? && r.st.stack == st.stack + [v] && r.st.mem == st.mem
  {
    match n
    case Number(v) =>
      assert [PushImm(v)][1..] == [];
    case Binary(op, l, r) =>
      RunAppend(Gen(l) + Gen(r), OperateCode(op), st, callee);
      RunAppend(Gen(l), Gen(r), st, callee);
      GenCorrect(l, st, callee);
      if Eval(l).Some? {
        var st1 := Run(Gen(l), st, callee).st;
        GenCorrect(r, st1, callee);
        if Eval(r).Some? {
          var st2 := Run(Gen(r), st1, callee).st;
          assert st2.stack == st.stack + [Eval(l).value, Eval(r).value];
          Combine(op, st2, st.stack, Eval(l).value, Eval(r).value, callee);
        }
      }
  }

  /** What `main` runs before its `ret`: the tree's code, then `pop rax`. */
  function Body(n: Node): seq<Instr> {
    Gen(n) + [Pop(Rax)]
  }

  /** The whole output of `main`: the directives, the label `main`, the body
      and `ret`. */
  function MainCode(n: Node): seq<Instr> {
    [IntelSyntax, Global("main"), FuncLabel("main")] + Body(n) + [Ret]
  }

  /** `main` returns the expression's value: the body leaves it in `rax`
      with the stack as it found it. */
  lemma BodyReturnsValue(n: Node, st: State, callee: Callee)
    requires Eval(n).Some?
    ensures var r := Run(Body(n), st, callee);
            r.Done? && Get(r.st, Rax) == Eval(n).value && r.st.stack == st.stack
  {
    GenCorrect(n, st, callee);
    RunAppend(Gen(n), [Pop(Rax)], st, callee);
    var st1 := Run(Gen(n), st, callee).st;
    assert st1.stack[..|st1.stack| - 1] == st.stack;
    assert [Pop(Rax)][1..] == [];
  }

  /** The tree `main` parses from its argument: the text is tokenized and one
      expression is parsed from the front. Tokens after it are not looked at. */
  function Parsed(s: string): Result<Node> {
    var toks :- Lex(s, 0);
    var pr :- Expression(toks);
    Ok(pr.0)
  }

  /** `main`'s output for the text `s`. */
  function Compile(s: string): Result<seq<Instr>> {
    var n :- Parsed(s);
    Ok(MainCode(n))
  }

  /** Whatever `Compile` accepts, its body returns the parsed tree's value. */
  lemma CompileCorrect(s: string, st: State, callee: Callee)
    requires Compile(s).Ok? && Eval(Parsed(s).value).Some?
    ensures var r := Run(Body(Parsed(s).value), st, callee);
            r.Done? && Get(r.st, Rax) == Eval(Parsed(s).value).value && r.st.stack == st.stack
  {
    BodyReturnsValue(Parsed(s).value, st, callee);
  }
}
