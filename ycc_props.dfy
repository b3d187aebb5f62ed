/** Properties of the ycc.c grammar: a printer that writes a tree back as
    tokens, with the fewest parentheses the precedence levels need, and the
    proof that the parser reads every such token list back as the same tree.
    Precedence, left associativity, the swap of `>` and `>=` and unary `-`
    follow as corollaries for all operands. */
module YccProps {
  import Ast
  import opened Errors
  import opened YccLex
  import opened YccParse

  /** A reserved token and a number token (offsets and number spellings
      play no part in parsing). */
  function Op(s: string): Token {
    Token(Reserved, 0, s, 0)
  }

  function NumTok(v: int): Token {
    Token(Num, 0, "", v)
  }

  function OpText(op: Ast.BinOp): string {
    match op
    case Add => "+"
    case Sub => "-"
    case Mul => "*"
    case Div => "/"
    case Eq => "=="
    case Ne => "!="
    case Lt => "<"
    case Le => "<="
  }

  /** The grammar level of a binary operator: 0 equality, 1 relational,
      2 additive, 3 multiplicative. */
  function Level(op: Ast.BinOp): nat {
    match op
    case Eq => 0
    case Ne => 0
    case Lt => 1
    case Le => 1
    case Add => 2
    case Sub => 2
    case Mul => 3
    case Div => 3
  }

  /** The level of the rule that builds a node's root: a binary level, or
      5 for a number, which `primary` reads (4 is `unary`). */
  function Prec(n: Node): nat {
    match n
    case Number(_) => 5
    case Binary(op, _, _) => Level(op)
  }

  function Size(n: Node): nat {
    match n
    case Number(_) => 1
    case Binary(_, a, b) => 1 + Size(a) + Size(b)
  }

  /** `n` written as tokens for a context of level `k`: parenthesised when
      its own level binds less tightly than `k` requires. A left operand
      stays at its operator's level and a right operand goes one level up,
      which is what makes every binary level left-associative. */
  function Print(n: Node, k: nat): seq<Token>
    decreases n, if Prec(n) < k then 1 else 0
  {
    if Prec(n) < k then [Op("(")] + Print(n, 0) + [Op(")")]
    else
      match n
      case Number(v) => [NumTok(v)]
      case Binary(op, a, b) => Print(a, Level(op)) + [Op(OpText(op))] + Print(b, Level(op) + 1)
  }

  /** The level at which the head of `ts` would continue an expression:
      `==`/`!=` 0, relational 1, additive 2, multiplicative 3; -1 for
      anything else, `)` and the end included. */
  function ContinuesAt(ts: seq<Token>): int {
    if |ts| == 0 || ts[0].kind != Reserved then -1
    else
      var s := ts[0].text;
      if s == "==" || s == "!=" then 0
      else if s == "<" || s == "<=" || s == ">" || s == ">=" then 1
      else if s == "+" || s == "-" then 2
      else if s == "*" || s == "/" then 3
      else -1
  }

  /** `ts` cannot extend an expression parsed at level `k`. */
  predicate Stops(ts: seq<Token>, k: int) {
    ContinuesAt(ts) < k
  }

  // The round-trip lemmas descend the grammar one rule at a time, in this
  // order: Expression 0, Equality 1, its loop 2, Relational 3, its loop 4,
  // Add 5, its loop 6, Mul 7, its loop 8, Unary 9, Primary 10; Primary
  // re-enters at 0 for a parenthesised tree. `Slot(n)` is the step at which
  // `n`'s root is taken apart, and `Dist` the number of steps still to go.

  function Slot(n: Node): nat {
    match n
    case Number(_) => 10
    case Binary(op, _, _) => 2 * Level(op) + 2
  }

  function Dist(p: nat, n: Node): nat {
    if p <= Slot(n) then Slot(n) - p else if p <= 11 then Slot(n) + 11 - p else 0
  }

  /** A binary node of level `k` printed at that level: its left operand at
      `k`, then its operator and its right operand one level up. */
  lemma PrintBinary(n: Node, k: nat, rest: seq<Token>)
    requires n.Binary? && Level(n.op) == k
    ensures var tail := [Op(OpText(n.op))] + Print(n.rhs, k + 1) + rest;
            Print(n, k) + rest == Print(n.lhs, k) + tail && tail[1..] == Print(n.rhs, k + 1) + rest
  {
    var tail := [Op(OpText(n.op))] + Print(n.rhs, k + 1) + rest;
    assert Print(n, k) == Print(n.lhs, k) + [Op(OpText(n.op))] + Print(n.rhs, k + 1);
    assert tail[1..] == Print(n.rhs, k + 1) + rest;
  }

  /** Any other node prints the same at level `k` and one level up. */
  lemma PrintSameLevel(n: Node, k: nat)
    requires k <= 3 && !(n.Binary? && Level(n.op) == k)
    ensures Print(n, k) == Print(n, k + 1)
  {
  }

  /** Printing then parsing gives back any tree, and stops exactly where the
      printed tokens end. */
  lemma {:induction false} RoundTripExpression(n: Node, rest: seq<Token>)
    requires Stops(rest, 0)
    ensures Expression(Print(n, 0) + rest) == Ok((n, rest))
    decreases Size(n), Dist(0, n)
  {
    RoundTripEquality(n, rest);
  }

  lemma {:induction false} RoundTripEquality(n: Node, rest: seq<Token>)
    requires Stops(rest, 0)
    ensures Equality(Print(n, 0) + rest) == Ok((n, rest))
    decreases Size(n), Dist(1, n)
  {
    EqualityLeft(n, rest);
  }

  /** One pass of the equality loop: the operator of `n` and its right
      operand make `n` from its left operand. */
  lemma EqualityStep(node: Node, op: Ast.BinOp, x: seq<Token>, rhs: Node, rest: seq<Token>)
    requires Level(op) == 0 && Relational(x + rest) == Ok((rhs, rest))
    ensures EqualityTail(node, [Op(OpText(op))] + x + rest) == EqualityTail(Binary(op, node, rhs), rest)
  {
    var tail := [Op(OpText(op))] + x + rest;
    Front(Op(OpText(op)), x, rest);
    if op == Ast.Eq {
      assert Consumes(tail, "==");
    } else {
      assert !Consumes(tail, "==") && Consumes(tail, "!=");
    }
  }

  /** Parsing a printed equality-level tree leaves the equality loop at that tree. */
  lemma {:induction false} EqualityLeft(n: Node, rest: seq<Token>)
    requires Stops(rest, 1)
    ensures Equality(Print(n, 0) + rest) == EqualityTail(n, rest)
    decreases Size(n), Dist(2, n)
  {
    if n.Binary? && Level(n.op) == 0 {
      var tail := [Op(OpText(n.op))] + Print(n.rhs, 1) + rest;
      PrintBinary(n, 0, rest);
      EqualityLeft(n.lhs, tail);
      RoundTripRelational(n.rhs, rest);
      EqualityStep(n.lhs, n.op, Print(n.rhs, 1), n.rhs, rest);
    } else {
      PrintSameLevel(n, 0);
      RoundTripRelational(n, rest);
    }
  }

  lemma {:induction false} RoundTripRelational(n: Node, rest: seq<Token>)
    requires Stops(rest, 1)
    ensures Relational(Print(n, 1) + rest) == Ok((n, rest))
    decreases Size(n), Dist(3, n)
  {
    RelationalLeft(n, rest);
  }

  /** One pass of the relational loop, for the `<` and `<=` the printer writes. */
  lemma RelationalStep(node: Node, op: Ast.BinOp, x: seq<Token>, rhs: Node, rest: seq<Token>)
    requires Level(op) == 1 && AddExpr(x + rest) == Ok((rhs, rest))
    ensures RelationalTail(node, [Op(OpText(op))] + x + rest) == RelationalTail(Binary(op, node, rhs), rest)
  {
    var tail := [Op(OpText(op))] + x + rest;
    Front(Op(OpText(op)), x, rest);
    if op == Ast.Lt {
      assert Consumes(tail, "<");
    } else {
      assert !Consumes(tail, "<") && Consumes(tail, "<=");
    }
  }

  lemma {:induction false} RelationalLeft(n: Node, rest: seq<Token>)
    requires Stops(rest, 2)
    ensures Relational(Print(n, 1) + rest) == RelationalTail(n, rest)
    decreases Size(n), Dist(4, n)
  {
    if n.Binary? && Level(n.op) == 1 {
      var tail := [Op(OpText(n.op))] + Print(n.rhs, 2) + rest;
      PrintBinary(n, 1, rest);
      RelationalLeft(n.lhs, tail);
      RoundTripAdd(n.rhs, rest);
      RelationalStep(n.lhs, n.op, Print(n.rhs, 2), n.rhs, rest);
    } else {
      PrintSameLevel(n, 1);
      RoundTripAdd(n, rest);
    }
  }

  lemma {:induction false} RoundTripAdd(n: Node, rest: seq<Token>)
    requires Stops(rest, 2)
    ensures AddExpr(Print(n, 2) + rest) == Ok((n, rest))
    decreases Size(n), Dist(5, n)
  {
    AddLeft(n, rest);
  }

  /** One pass of the additive loop. */
  lemma AddStep(node: Node, op: Ast.BinOp, x: seq<Token>, rhs: Node, rest: seq<Token>)
    requires Level(op) == 2 && MulExpr(x + rest) == Ok((rhs, rest))
    ensures AddTail(node, [Op(OpText(op))] + x + rest) == AddTail(Binary(op, node, rhs), rest)
  {
    var tail := [Op(OpText(op))] + x + rest;
    Front(Op(OpText(op)), x, rest);
    if op == Ast.Add {
      assert Consumes(tail, "+");
    } else {
      assert !Consumes(tail, "+") && Consumes(tail, "-");
    }
  }

  lemma {:induction false} AddLeft(n: Node, rest: seq<Token>)
    requires Stops(rest, 3)
    ensures AddExpr(Print(n, 2) + rest) == AddTail(n, rest)
    decreases Size(n), Dist(6, n)
  {
    if n.Binary? && Level(n.op) == 2 {
      var tail := [Op(OpText(n.op))] + Print(n.rhs, 3) + rest;
      PrintBinary(n, 2, rest);
      AddLeft(n.lhs, tail);
      RoundTripMul(n.rhs, rest);
      AddStep(n.lhs, n.op, Print(n.rhs, 3), n.rhs, rest);
    } else {
      PrintSameLevel(n, 2);
      RoundTripMul(n, rest);
    }
  }

  lemma {:induction false} RoundTripMul(n: Node, rest: seq<Token>)
    requires Stops(rest, 3)
    ensures MulExpr(Print(n, 3) + rest) == Ok((n, rest))
    decreases Size(n), Dist(7, n)
  {
    MulLeft(n, rest);
  }

  /** One pass of the multiplicative loop. */
  lemma MulStep(node: Node, op: Ast.BinOp, x: seq<Token>, rhs: Node, rest: seq<Token>)
    requires Level(op) == 3 && UnaryExpr(x + rest) == Ok((rhs, rest))
    ensures MulTail(node, [Op(OpText(op))] + x + rest) == MulTail(Binary(op, node, rhs), rest)
  {
    var tail := [Op(OpText(op))] + x + rest;
    Front(Op(OpText(op)), x, rest);
    if op == Ast.Mul {
      assert Consumes(tail, "*");
    } else {
      assert !Consumes(tail, "*") && Consumes(tail, "/");
    }
  }

  lemma {:induction false} MulLeft(n: Node, rest: seq<Token>)
    ensures MulExpr(Print(n, 3) + rest) == MulTail(n, rest)
    decreases Size(n), Dist(8, n)
  {
    if n.Binary? && Level(n.op) == 3 {
      var tail := [Op(OpText(n.op))] + Print(n.rhs, 4) + rest;
      PrintBinary(n, 3, rest);
      MulLeft(n.lhs, tail);
      RoundTripUnary(n.rhs, rest);
      MulStep(n.lhs, n.op, Print(n.rhs, 4), n.rhs, rest);
    } else {
      PrintSameLevel(n, 3);
      RoundTripUnary(n, rest);
    }
  }

  /** A printed tree starts with a number or `(`, never with a sign, so
      `unary` hands it to `primary`. */
  lemma {:induction false} RoundTripUnary(n: Node, rest: seq<Token>)
    ensures UnaryExpr(Print(n, 4) + rest) == Ok((n, rest))
    decreases Size(n), Dist(9, n)
  {
    var ts := Print(n, 4) + rest;
    assert Print(n, 4) == Print(n, 5);
    if n.Number? {
      assert ts[0] == NumTok(n.val);
    } else {
      assert ts[0] == Op("(");
    }
    RoundTripPrimary(n, rest);
  }

  /** A number reads back as itself, and any other tree through its parentheses. */
  lemma {:induction false} RoundTripPrimary(n: Node, rest: seq<Token>)
    ensures Primary(Print(n, 5) + rest) == Ok((n, rest))
    decreases Size(n), Dist(10, n)
  {
    var ts := Print(n, 5) + rest;
    if n.Number? {
      assert ts == [NumTok(n.val)] + rest;
      assert ts[1..] == rest;
    } else {
      var inner := [Op(")")] + rest;
      ParensSplit(Print(n, 0), rest);
      RoundTripExpression(n, inner);
      assert inner[1..] == rest;
    }
  }

  /** A token in front of `x`, with `rest` behind. */
  lemma Front(t: Token, x: seq<Token>, rest: seq<Token>)
    ensures var ts := [t] + x + rest; |ts| > 0 && ts[0] == t && ts[1..] == x + rest
  {
    assert [t] + x + rest == [t] + (x + rest);
  }

  /** A parenthesised token list, regrouped for `primary`. */
  lemma ParensSplit(x: seq<Token>, rest: seq<Token>)
    ensures var ts := [Op("(")] + x + [Op(")")] + rest;
            Consumes(ts, "(") && ts[1..] == x + ([Op(")")] + rest) && Stops([Op(")")] + rest, 0)
  {
    var ts := [Op("(")] + x + [Op(")")] + rest;
    assert ts == [Op("(")] + (x + ([Op(")")] + rest));
  }

  // ---------------------------------------------------------------------
  // Corollaries for all operands

  /** `a > b` is read as `b < a`. */
  lemma GreaterSwaps(a: Node, b: Node, rest: seq<Token>)
    requires Stops(rest, 1)
    ensures Relational(Print(a, 1) + [Op(">")] + Print(b, 2) + rest) == Ok((Binary(Ast.Lt, b, a), rest))
  {
    var tail := [Op(">")] + (Print(b, 2) + rest);
    Regroup(Print(a, 1), [Op(">")], Print(b, 2), rest);
    RelationalLeft(a, tail);
    RoundTripAdd(b, rest);
    assert tail[1..] == Print(b, 2) + rest;
    assert !Consumes(tail, "<") && !Consumes(tail, "<=") && Consumes(tail, ">");
  }

  /** `a >= b` is read as `b <= a`. */
  lemma GreaterEqualSwaps(a: Node, b: Node, rest: seq<Token>)
    requires Stops(rest, 1)
    ensures Relational(Print(a, 1) + [Op(">=")] + Print(b, 2) + rest) == Ok((Binary(Ast.Le, b, a), rest))
  {
    var tail := [Op(">=")] + (Print(b, 2) + rest);
    Regroup(Print(a, 1), [Op(">=")], Print(b, 2), rest);
    RelationalLeft(a, tail);
    RoundTripAdd(b, rest);
    assert tail[1..] == Print(b, 2) + rest;
    assert !Consumes(tail, "<") && !Consumes(tail, "<=") && !Consumes(tail, ">") && Consumes(tail, ">=");
  }

  lemma Regroup(p: seq<Token>, x: seq<Token>, y: seq<Token>, rest: seq<Token>)
    ensures p + x + y + rest == p + (x + (y + rest))
  {
  }

  /** Unary minus is subtraction from zero. */
  lemma UnaryMinus(n: Node, rest: seq<Token>)
    ensures UnaryExpr([Op("-")] + Print(n, 4) + rest) == Ok((Binary(Ast.Sub, Number(0), n), rest))
  {
    var ts := [Op("-")] + Print(n, 4) + rest;
    assert ts[1..] == Print(n, 4) + rest;
    RoundTripUnary(n, rest);
    assert !Consumes(ts, "+") && Consumes(ts, "-");
  }

  /** Unary plus leaves no node behind. */
  lemma UnaryPlus(n: Node, rest: seq<Token>)
    ensures UnaryExpr([Op("+")] + Print(n, 4) + rest) == Ok((n, rest))
  {
    var ts := [Op("+")] + Print(n, 4) + rest;
    assert ts[1..] == Print(n, 4) + rest;
    RoundTripUnary(n, rest);
    assert Consumes(ts, "+");
  }

  /** `a - b - c` is `(a - b) - c`. */
  lemma SubtractionLeftAssociative(a: Node, b: Node, c: Node, rest: seq<Token>)
    requires Stops(rest, 2)
    ensures AddExpr(Print(a, 2) + [Op("-")] + Print(b, 3) + [Op("-")] + Print(c, 3) + rest)
            == Ok((Binary(Ast.Sub, Binary(Ast.Sub, a, b), c), rest))
  {
    var n := Binary(Ast.Sub, Binary(Ast.Sub, a, b), c);
    PrintSubSub(a, b, c);
    RoundTripAdd(n, rest);
  }

  lemma PrintSubSub(a: Node, b: Node, c: Node)
    ensures Print(Binary(Ast.Sub, Binary(Ast.Sub, a, b), c), 2)
            == Print(a, 2) + [Op("-")] + Print(b, 3) + [Op("-")] + Print(c, 3)
  {
  }

  /** `a + b * c` is `a + (b * c)`. */
  lemma MultiplicationBindsTighter(a: Node, b: Node, c: Node, rest: seq<Token>)
    requires Stops(rest, 2)
    ensures AddExpr(Print(a, 2) + [Op("+")] + Print(b, 3) + [Op("*")] + Print(c, 4) + rest)
            == Ok((Binary(Ast.Add, a, Binary(Ast.Mul, b, c)), rest))
  {
    var n := Binary(Ast.Add, a, Binary(Ast.Mul, b, c));
    PrintAddMul(a, b, c);
    RoundTripAdd(n, rest);
  }

  lemma PrintAddMul(a: Node, b: Node, c: Node)
    ensures Print(Binary(Ast.Add, a, Binary(Ast.Mul, b, c)), 2)
            == Print(a, 2) + [Op("+")] + Print(b, 3) + [Op("*")] + Print(c, 4)
  {
    var pa, pb, pc := Print(a, 2), Print(b, 3), Print(c, 4);
    assert Print(Binary(Ast.Mul, b, c), 3) == pb + [Op("*")] + pc;
    assert Print(Binary(Ast.Add, a, Binary(Ast.Mul, b, c)), 2) == pa + [Op("+")] + (pb + [Op("*")] + pc);
    assert pa + [Op("+")] + (pb + [Op("*")] + pc) == pa + [Op("+")] + pb + [Op("*")] + pc;
  }
}
