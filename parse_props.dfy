/** Properties of the parse.c expression grammar: a printer that writes an
    expression tree back as tokens, with the fewest parentheses the
    precedence levels need, and the proof that the parser reads every such
    token list back as the same tree. Precedence, associativity and the
    desugarings of `>`, `>=`, unary `-` and `a[i]` follow as corollaries. */
module ParseProps {
  import opened Errors
  import opened Ast
  import opened Tokenize
  import opened ParseSpec

  /** A reserved token, an identifier token and a number token (offsets and
      number spellings play no part in parsing). */
  function Op(s: string): Token {
    Token(Reserved, 0, s, 0)
  }

  function IdentTok(name: string): Token {
    Token(Ident, 0, name, 0)
  }

  function NumTok(v: int): Token {
    Token(TokenKind.Num, 0, "", v)
  }

  function OpText(op: BinOp): string {
    match op
    case Add => "+"
    case Sub => "-"
    case Mul => "*"
    case Div => "/"
    case Eq => "=="
    case Ne => "!="
    case Lt => "<"
    case Le => "<="
  }

  /** The grammar level of a binary operator: 1 equality, 2 relational, 3 additive, 4 multiplicative. */
  function OpLevelOf(op: BinOp): nat {
    match op
    case Eq => 1
    case Ne => 1
    case Lt => 2
    case Le => 2
    case Add => 3
    case Sub => 3
    case Mul => 4
    case Div => 4
  }

  /** The level of the grammar rule that builds `e`'s root: 0 assign, 1-4 the
      binary levels, 5 unary prefixes, 7 primary (6 is postfix, whose `a[i]`
      yields a dereference). */
  function Prec(e: Expr): nat {
    match e
    case Assign(_, _, _) => 0
    case Binary(op, _, _, _) => OpLevelOf(op)
    case Addr(_, _) => 5
    case Deref(_, _) => 5
    case SizeOf(_, _) => 5
    case Num(_, _) => 7
    case VarRef(_, _) => 7
    case Call(_, _, _, _) => 7
  }

  function Size(e: Expr): nat
    decreases e, 1
  {
    match e
    case Num(_, _) => 1
    case VarRef(_, _) => 1
    case Binary(_, a, b, _) => 1 + Size(a) + Size(b)
    case Assign(a, b, _) => 1 + Size(a) + Size(b)
    case Addr(a, _) => 1 + Size(a)
    case Deref(a, _) => 1 + Size(a)
    case SizeOf(a, _) => 1 + Size(a)
    case Call(_, args, _, _) => 1 + SizeAll(args)
  }

  function SizeAll(es: seq<Expr>): nat
    decreases es, 0
  {
    if es == [] then 0 else Size(es[0]) + SizeAll(es[1..])
  }

  /** `e` written as tokens for a context of grammar level `k`: parenthesised
      when its own level binds less tightly than `k` requires. Left operands
      of a binary level stay at that level, right operands go one level up,
      which makes the binary levels left-associative and `=` right-associative. */
  function Print(e: Expr, k: nat): seq<Token>
    decreases Size(e), if Prec(e) < k then 1 else 0
  {
    if Prec(e) < k then [Op("(")] + Print(e, 0) + [Op(")")]
    else
      match e
      case Assign(a, b, _) => Print(a, 1) + [Op("=")] + Print(b, 0)
      case Binary(op, a, b, _) => Print(a, OpLevelOf(op)) + [Op(OpText(op))] + Print(b, OpLevelOf(op) + 1)
      case Addr(a, _) => [Op("&")] + Print(a, 5)
      case Deref(a, _) => [Op("*")] + Print(a, 5)
      case SizeOf(a, _) => [Op("sizeof")] + Print(a, 5)
      case Num(v, _) => [NumTok(v)]
      case VarRef(v, _) => [IdentTok(v.name)]
      case Call(name, args, _, _) => [IdentTok(name), Op("(")] + PrintArgs(args) + [Op(")")]
  }

  /** A binary node of level `k` printed at that level: its left operand at
      `k`, then its operator and its right operand one level up. */
  lemma PrintBinary(e: Expr, k: nat, rest: seq<Token>)
    requires e.Binary? && OpLevelOf(e.op) == k
    ensures var tail := [Op(OpText(e.op))] + Print(e.rhs, k + 1) + rest;
            Print(e, k) + rest == Print(e.lhs, k) + tail && tail[1..] == Print(e.rhs, k + 1) + rest
  {
    var tail := [Op(OpText(e.op))] + Print(e.rhs, k + 1) + rest;
    assert Print(e, k) == Print(e.lhs, k) + [Op(OpText(e.op))] + Print(e.rhs, k + 1);
    assert tail[1..] == Print(e.rhs, k + 1) + rest;
  }

  /** Any other tree prints the same at binary level `k` and one level up. */
  lemma PrintSameLevel(e: Expr, k: nat)
    requires 1 <= k <= 4 && !(e.Binary? && OpLevelOf(e.op) == k)
    ensures Print(e, k) == Print(e, k + 1)
  {
  }

  /** Call arguments separated by commas. */
  function PrintArgs(args: seq<Expr>): seq<Token>
    decreases SizeAll(args), 2
  {
    if args == [] then [] else Print(args[0], 0) + PrintMore(args[1..])
  }

  /** Further arguments, each preceded by a comma. */
  function PrintMore(args: seq<Expr>): seq<Token>
    decreases SizeAll(args), 2
  {
    if args == [] then [] else [Op(",")] + Print(args[0], 0) + PrintMore(args[1..])
  }

  /** The trees the parser can produce: untyped, every variable is what the
      scope resolves its name to, and every call's `argnum` counts its arguments. */
  predicate Printable(e: Expr, sc: Scope)
    decreases e
  {
    e.ty == None &&
    match e
    case Num(_, _) => true
    case VarRef(v, _) => FindVar(sc, v.name) == Some(v)
    case Binary(_, a, b, _) => Printable(a, sc) && Printable(b, sc)
    case Assign(a, b, _) => Printable(a, sc) && Printable(b, sc)
    case Addr(a, _) => Printable(a, sc)
    case Deref(a, _) => Printable(a, sc)
    case SizeOf(a, _) => Printable(a, sc)
    case Call(_, args, argnum, _) => argnum == |args| && forall i :: 0 <= i < |args| ==> Printable(args[i], sc)
  }

  /** The level at which the head of `ts` would continue an expression:
      `=` 0, `==`/`!=` 1, relational 2, additive 3, multiplicative 4, `[` 6,
      and `(` 8 (it turns a preceding name into a call); -1 for anything else. */
  function ContinuesAt(ts: seq<Token>): int {
    if |ts| == 0 || ts[0].kind == Ident || ts[0].kind == TokenKind.Num then -1
    else
      var s := ts[0].text;
      if s == "=" then 0
      else if s == "==" || s == "!=" then 1
      else if s == "<" || s == "<=" || s == ">" || s == ">=" then 2
      else if s == "+" || s == "-" then 3
      else if s == "*" || s == "/" then 4
      else if s == "[" then 6
      else if s == "(" then 8
      else -1
  }

  /** `ts` cannot extend an expression parsed at level `k`. */
  predicate Stops(ts: seq<Token>, k: int) {
    ContinuesAt(ts) < k
  }

  // The round-trip lemmas descend the grammar one rule at a time, in this
  // order: Expression 0, Assign 1, Equality 2, EqualityTail 3, Relational 4,
  // RelationalTail 5, Add 6, AddTail 7, Mul 8, MulTail 9, Unary 10,
  // Postfix 11, Primary 12; Primary re-enters at 0 for a parenthesised tree.
  // `Slot(e)` is the step at which `e`'s root is taken apart, and `Dist`
  // the number of steps still to go, which bounds the descent.

  function Slot(e: Expr): nat {
    match e
    case Assign(_, _, _) => 1
    case Binary(op, _, _, _) => 2 * OpLevelOf(op) + 1
    case Addr(_, _) => 10
    case Deref(_, _) => 10
    case SizeOf(_, _) => 10
    case Num(_, _) => 12
    case VarRef(_, _) => 12
    case Call(_, _, _, _) => 12
  }

  function Dist(p: nat, e: Expr): nat {
    if p <= Slot(e) then Slot(e) - p else if p <= 13 then Slot(e) + 13 - p else 0
  }

  lemma {:induction false} RoundTripExpression(e: Expr, rest: seq<Token>, sc: Scope)
    requires Printable(e, sc) && Stops(rest, 0)
    ensures Expression(Print(e, 0) + rest, sc) == Ok((e, rest))
    decreases Size(e), Dist(0, e)
  {
    RoundTripAssign(e, rest, sc);
  }

  /** `=` is right-associative: the right operand is parsed as a whole assignment. */
  lemma {:induction false} RoundTripAssign(e: Expr, rest: seq<Token>, sc: Scope)
    requires Printable(e, sc) && Stops(rest, 0)
    ensures AssignExpr(Print(e, 0) + rest, sc) == Ok((e, rest))
    decreases Size(e), Dist(1, e)
  {
    if e.Assign? {
      var a, b := e.lhs, e.rhs;
      var tail := [Op("=")] + Print(b, 0) + rest;
      assert Print(e, 0) + rest == Print(a, 1) + tail;
      RoundTripEquality(a, tail, sc);
      assert tail[1..] == Print(b, 0) + rest;
      RoundTripAssign(b, rest, sc);
    } else {
      assert Print(e, 0) == Print(e, 1);
      RoundTripEquality(e, rest, sc);
    }
  }

  lemma {:induction false} RoundTripEquality(e: Expr, rest: seq<Token>, sc: Scope)
    requires Printable(e, sc) && Stops(rest, 1)
    ensures Equality(Print(e, 1) + rest, sc) == Ok((e, rest))
    decreases Size(e), Dist(2, e)
  {
    EqualityLeft(e, rest, sc);
  }

  /** One pass of the loop of level 1: the operator of `e` and its right
      operand make `e` from its left operand. */
  lemma EqualityStep(e: Expr, rest: seq<Token>, sc: Scope)
    requires e.Binary? && OpLevelOf(e.op) == 1 && e.ty == None
    requires Relational(Print(e.rhs, 2) + rest, sc) == Ok((e.rhs, rest))
    ensures EqualityTail(e.lhs, [Op(OpText(e.op))] + Print(e.rhs, 2) + rest, sc) == EqualityTail(e, rest, sc)
  {
    var tail := [Op(OpText(e.op))] + Print(e.rhs, 2) + rest;
    assert tail[1..] == Print(e.rhs, 2) + rest;
    assert e == Bin(e.op, e.lhs, e.rhs);
    if e.op == Eq {
      assert Consumes(tail, "==");
    } else {
      assert !Consumes(tail, "==") && Consumes(tail, "!=");
    }
  }

  /** Parsing a printed equality-level tree leaves the equality loop at that tree. */
  lemma {:induction false} EqualityLeft(e: Expr, rest: seq<Token>, sc: Scope)
    requires Printable(e, sc) && Stops(rest, 2)
    ensures Equality(Print(e, 1) + rest, sc) == EqualityTail(e, rest, sc)
    decreases Size(e), Dist(3, e)
  {
    if e.Binary? && OpLevelOf(e.op) == 1 {
      var a, b := e.lhs, e.rhs;
      var tail := [Op(OpText(e.op))] + Print(b, 2) + rest;
      PrintBinary(e, 1, rest);
      EqualityLeft(a, tail, sc);
      RoundTripRelational(b, rest, sc);
      EqualityStep(e, rest, sc);
    } else {
      PrintSameLevel(e, 1);
      RoundTripRelational(e, rest, sc);
    }
  }

  lemma {:induction false} RoundTripRelational(e: Expr, rest: seq<Token>, sc: Scope)
    requires Printable(e, sc) && Stops(rest, 2)
    ensures Relational(Print(e, 2) + rest, sc) == Ok((e, rest))
    decreases Size(e), Dist(4, e)
  {
    RelationalLeft(e, rest, sc);
  }

  /** One pass of the loop of level 2: the operator of `e` and its right
      operand make `e` from its left operand. */
  lemma RelationalStep(e: Expr, rest: seq<Token>, sc: Scope)
    requires e.Binary? && OpLevelOf(e.op) == 2 && e.ty == None
    requires AddExpr(Print(e.rhs, 3) + rest, sc) == Ok((e.rhs, rest))
    ensures RelationalTail(e.lhs, [Op(OpText(e.op))] + Print(e.rhs, 3) + rest, sc) == RelationalTail(e, rest, sc)
  {
    var tail := [Op(OpText(e.op))] + Print(e.rhs, 3) + rest;
    assert tail[1..] == Print(e.rhs, 3) + rest;
    assert e == Bin(e.op, e.lhs, e.rhs);
    if e.op == Lt {
      assert Consumes(tail, "<");
    } else {
      assert !Consumes(tail, "<") && Consumes(tail, "<=");
    }
  }

  lemma {:induction false} RelationalLeft(e: Expr, rest: seq<Token>, sc: Scope)
    requires Printable(e, sc) && Stops(rest, 3)
    ensures Relational(Print(e, 2) + rest, sc) == RelationalTail(e, rest, sc)
    decreases Size(e), Dist(5, e)
  {
    if e.Binary? && OpLevelOf(e.op) == 2 {
      var a, b := e.lhs, e.rhs;
      var tail := [Op(OpText(e.op))] + Print(b, 3) + rest;
      PrintBinary(e, 2, rest);
      RelationalLeft(a, tail, sc);
      RoundTripAdd(b, rest, sc);
      RelationalStep(e, rest, sc);
    } else {
      PrintSameLevel(e, 2);
      RoundTripAdd(e, rest, sc);
    }
  }

  lemma {:induction false} RoundTripAdd(e: Expr, rest: seq<Token>, sc: Scope)
    requires Printable(e, sc) && Stops(rest, 3)
    ensures AddExpr(Print(e, 3) + rest, sc) == Ok((e, rest))
    decreases Size(e), Dist(6, e)
  {
    AddLeft(e, rest, sc);
  }

  /** One pass of the loop of level 3: the operator of `e` and its right
      operand make `e` from its left operand. */
  lemma AddStep(e: Expr, rest: seq<Token>, sc: Scope)
    requires e.Binary? && OpLevelOf(e.op) == 3 && e.ty == None
    requires MulExpr(Print(e.rhs, 4) + rest, sc) == Ok((e.rhs, rest))
    ensures AddTail(e.lhs, [Op(OpText(e.op))] + Print(e.rhs, 4) + rest, sc) == AddTail(e, rest, sc)
  {
    var tail := [Op(OpText(e.op))] + Print(e.rhs, 4) + rest;
    assert tail[1..] == Print(e.rhs, 4) + rest;
    assert e == Bin(e.op, e.lhs, e.rhs);
    if e.op == Add {
      assert Consumes(tail, "+");
    } else {
      assert !Consumes(tail, "+") && Consumes(tail, "-");
    }
  }

  lemma {:induction false} AddLeft(e: Expr, rest: seq<Token>, sc: Scope)
    requires Printable(e, sc) && Stops(rest, 4)
    ensures AddExpr(Print(e, 3) + rest, sc) == AddTail(e, rest, sc)
    decreases Size(e), Dist(7, e)
  {
    if e.Binary? && OpLevelOf(e.op) == 3 {
      var a, b := e.lhs, e.rhs;
      var tail := [Op(OpText(e.op))] + Print(b, 4) + rest;
      PrintBinary(e, 3, rest);
      AddLeft(a, tail, sc);
      RoundTripMul(b, rest, sc);
      AddStep(e, rest, sc);
    } else {
      PrintSameLevel(e, 3);
      RoundTripMul(e, rest, sc);
    }
  }

  lemma {:induction false} RoundTripMul(e: Expr, rest: seq<Token>, sc: Scope)
    requires Printable(e, sc) && Stops(rest, 4)
    ensures MulExpr(Print(e, 4) + rest, sc) == Ok((e, rest))
    decreases Size(e), Dist(8, e)
  {
    MulLeft(e, rest, sc);
  }

  lemma {:induction false} MulLeft(e: Expr, rest: seq<Token>, sc: Scope)
    requires Printable(e, sc) && Stops(rest, 5)
    ensures MulExpr(Print(e, 4) + rest, sc) == MulTail(e, rest, sc)
    decreases Size(e), Dist(9, e)
  {
    if e.Binary? && OpLevelOf(e.op) == 4 {
      var a, b := e.lhs, e.rhs;
      var tail := [Op(OpText(e.op))] + Print(b, 5) + rest;
      PrintBinary(e, 4, rest);
      MulLeft(a, tail, sc);
      RoundTripUnary(b, rest, sc);
      assert e == Bin(e.op, a, b);
      if e.op == Mul {
        assert Consumes(tail, "*");
      } else {
        assert !Consumes(tail, "*") && Consumes(tail, "/");
      }
    } else {
      PrintSameLevel(e, 4);
      RoundTripUnary(e, rest, sc);
    }
  }

  lemma {:induction false} RoundTripUnary(e: Expr, rest: seq<Token>, sc: Scope)
    requires Printable(e, sc) && Stops(rest, 5)
    ensures UnaryExpr(Print(e, 5) + rest, sc) == Ok((e, rest))
    decreases Size(e), Dist(10, e), 1
  {
    if e.Addr? || e.Deref? || e.SizeOf? {
      RoundTripPrefix(e, rest, sc);
    } else {
      var ts := Print(e, 5) + rest;
      assert Print(e, 5) == Print(e, 6);
      PrintOpens(e, 6);
      assert ts[0] == Print(e, 6)[0];
      RoundTripPostfix(e, rest, sc);
    }
  }

  /** `&`, `*` and `sizeof` read back as the node they print. */
  lemma {:induction false} RoundTripPrefix(e: Expr, rest: seq<Token>, sc: Scope)
    requires Printable(e, sc) && Stops(rest, 5) && (e.Addr? || e.Deref? || e.SizeOf?)
    ensures UnaryExpr(Print(e, 5) + rest, sc) == Ok((e, rest))
    decreases Size(e), Dist(10, e), 0
  {
    var a := e.lhs;
    var ts := Print(e, 5) + rest;
    PrintPrefix(e);
    Front(Op(if e.Addr? then "&" else if e.Deref? then "*" else "sizeof"), Print(a, 5), rest);
    RoundTripUnary(a, rest, sc);
    if e.SizeOf? {
      assert Consumes(ts, "sizeof");
    } else if e.Addr? {
      assert !Consumes(ts, "sizeof") && !Consumes(ts, "+") && !Consumes(ts, "-") && Consumes(ts, "&");
    } else {
      assert !Consumes(ts, "sizeof") && !Consumes(ts, "+") && !Consumes(ts, "-") && !Consumes(ts, "&");
      assert Consumes(ts, "*");
    }
  }

  /** A prefix node prints as its operator and its operand at the unary level. */
  lemma PrintPrefix(e: Expr)
    requires e.Addr? || e.Deref? || e.SizeOf?
    ensures Print(e, 5) == [Op(if e.Addr? then "&" else if e.Deref? then "*" else "sizeof")] + Print(e.lhs, 5)
  {
  }

  /** A token in front of `x`, with `rest` behind. */
  lemma Front(t: Token, x: seq<Token>, rest: seq<Token>)
    ensures var ts := [t] + x + rest; |ts| > 0 && ts[0] == t && ts[1..] == x + rest
  {
    assert [t] + x + rest == [t] + (x + rest);
  }

  /** The first token of a printed tree opens an expression. */
  predicate Opens(t: Token) {
    t.kind == Ident || t.kind == TokenKind.Num ||
    (t.kind == Reserved && (t.text == "(" || t.text == "&" || t.text == "*" || t.text == "sizeof"))
  }

  /** A tree printed at a level above the unary prefixes starts with a name,
      a number or `(`; at any level it starts with a token that opens an
      expression. */
  lemma {:induction false} PrintOpens(e: Expr, k: nat)
    ensures |Print(e, k)| > 0 && Opens(Print(e, k)[0])
    ensures k > 5 ==> Print(e, k)[0] == Op("(") || Print(e, k)[0].kind in {Ident, TokenKind.Num}
    decreases Size(e)
  {
    if Prec(e) < k {
    } else {
      match e
      case Assign(a, b, _) =>
        PrintOpens(a, 1);
      case Binary(op, a, b, _) =>
        PrintOpens(a, OpLevelOf(op));
      case _ =>
    }
  }

  lemma {:induction false} RoundTripPostfix(e: Expr, rest: seq<Token>, sc: Scope)
    requires Printable(e, sc) && Stops(rest, 6)
    ensures PostfixExpr(Print(e, 6) + rest, sc) == Ok((e, rest))
    decreases Size(e), Dist(11, e)
  {
    assert Print(e, 6) == Print(e, 7);
    RoundTripPrimary(e, rest, sc);
  }

  lemma {:induction false} RoundTripPrimary(e: Expr, rest: seq<Token>, sc: Scope)
    requires Printable(e, sc) && Stops(rest, 7)
    ensures Primary(Print(e, 7) + rest, sc) == Ok((e, rest))
    decreases Size(e), Dist(12, e), 2
  {
    if Prec(e) < 7 {
      RoundTripParens(e, rest, sc);
    } else if e.Call? {
      RoundTripCall(e, rest, sc);
    } else if e.VarRef? {
      var ts := Print(e, 7) + rest;
      assert ts[0] == IdentTok(e.v.name) && ts[1..] == rest;
    } else {
      var ts := Print(e, 7) + rest;
      assert ts[0] == NumTok(e.val) && ts[1..] == rest;
    }
  }

  /** A parenthesised tree is read by `primary`'s `"(" expr ")"` rule. */
  lemma {:induction false} RoundTripParens(e: Expr, rest: seq<Token>, sc: Scope)
    requires Printable(e, sc) && Stops(rest, 7) && Prec(e) < 7
    ensures Primary(Print(e, 7) + rest, sc) == Ok((e, rest))
    decreases Size(e), Dist(12, e), 1
  {
    var ts := Print(e, 7) + rest;
    var tail := [Op(")")] + rest;
    assert ts == [Op("(")] + (Print(e, 0) + tail);
    assert ts[1..] == Print(e, 0) + tail;
    RoundTripExpression(e, tail, sc);
  }

  /** A call is read back with the same name and arguments, and `argnum`
      counts them: the parser imposes no limit. */
  lemma {:induction false} RoundTripCall(e: Expr, rest: seq<Token>, sc: Scope)
    requires Printable(e, sc) && Stops(rest, 7) && e.Call?
    ensures Primary(Print(e, 7) + rest, sc) == Ok((e, rest))
    decreases Size(e), Dist(12, e), 1
  {
    var ts := Print(e, 7) + rest;
    var args := e.args;
    assert ts == [IdentTok(e.name), Op("(")] + (PrintArgs(args) + [Op(")")] + rest);
    assert ts[2..] == PrintArgs(args) + [Op(")")] + rest;
    if args != [] {
      RoundTripArgs(args, rest, sc);
      PrintOpens(args[0], 0);
      assert ts[2..][0] == Print(args[0], 0)[0];
    }
  }

  /** The arguments of a call read back as the same list, followed by `)`. */
  lemma {:induction false} RoundTripArgs(args: seq<Expr>, rest: seq<Token>, sc: Scope)
    requires args != [] && forall i :: 0 <= i < |args| ==> Printable(args[i], sc)
    ensures CallArgs(PrintArgs(args) + [Op(")")] + rest, sc) == Ok((args, rest))
    decreases SizeAll(args), 15
  {
    var x, m := Print(args[0], 0), PrintMore(args[1..]);
    PrintArgsSplit(args);
    TailStops(x, m, rest);
    RoundTripExpression(args[0], m + [Op(")")] + rest, sc);
    assert [args[0]] + args[1..] == args;
    RoundTripArgsTail([args[0]], args[1..], rest, sc);
  }

  /** Printed arguments: the first one, then either nothing or a comma. */
  lemma PrintArgsSplit(args: seq<Expr>)
    requires args != []
    ensures PrintArgs(args) == Print(args[0], 0) + PrintMore(args[1..])
    ensures var m := PrintMore(args[1..]); m == [] || m[0] == Op(",")
  {
    var more := args[1..];
    if more != [] {
      assert PrintMore(more) == [Op(",")] + (Print(more[0], 0) + PrintMore(more[1..]));
    }
  }

  /** Behind the first argument comes a `,` or the closing `)`, and either
      ends an expression. */
  lemma TailStops(x: seq<Token>, m: seq<Token>, rest: seq<Token>)
    requires m == [] || m[0] == Op(",")
    ensures x + m + [Op(")")] + rest == x + (m + [Op(")")] + rest)
    ensures Stops(m + [Op(")")] + rest, 0)
  {
    var tail := m + [Op(")")] + rest;
    assert tail[0] == if m == [] then Op(")") else Op(",");
  }

  lemma {:induction false} RoundTripArgsTail(acc: seq<Expr>, more: seq<Expr>, rest: seq<Token>, sc: Scope)
    requires forall i :: 0 <= i < |more| ==> Printable(more[i], sc)
    ensures ArgsTail(acc, PrintMore(more) + [Op(")")] + rest, sc) == Ok((acc + more, rest))
    decreases SizeAll(more), 14
  {
    if more == [] {
      assert PrintMore(more) + [Op(")")] + rest == [Op(")")] + rest;
      assert acc + more == acc;
    } else {
      RoundTripArgsStep(acc, more, rest, sc);
      forall i | 0 <= i < |more[1..]|
        ensures Printable(more[1..][i], sc)
      {
        assert more[1..][i] == more[i + 1];
      }
      assert SizeAll(more) == Size(more[0]) + SizeAll(more[1..]);
      RoundTripArgsTail(acc + [more[0]], more[1..], rest, sc);
      assert acc + [more[0]] + more[1..] == acc + more;
    }
  }

  /** The argument loop reads `"," more[0]` and goes on with the remaining arguments. */
  lemma {:induction false} RoundTripArgsStep(acc: seq<Expr>, more: seq<Expr>, rest: seq<Token>, sc: Scope)
    requires more != [] && Printable(more[0], sc)
    ensures ArgsTail(acc, PrintMore(more) + [Op(")")] + rest, sc)
         == ArgsTail(acc + [more[0]], PrintMore(more[1..]) + [Op(")")] + rest, sc)
    decreases SizeAll(more), 13
  {
    var x, m := Print(more[0], 0), PrintMore(more[1..]);
    var tail := m + [Op(")")] + rest;
    PrintMoreSplit(more);
    TailStops(x, m, rest);
    CommaRegroup(x, m, rest);
    RoundTripExpression(more[0], tail, sc);
    ArgsTailStep(acc, more[0], x, tail, sc);
  }

  /** Further arguments: a comma, the first of them, then either nothing or
      another comma. */
  lemma PrintMoreSplit(more: seq<Expr>)
    requires more != []
    ensures PrintMore(more) == [Op(",")] + Print(more[0], 0) + PrintMore(more[1..])
    ensures var m := PrintMore(more[1..]); m == [] || m[0] == Op(",")
  {
    var next := more[1..];
    if next != [] {
      assert PrintMore(next) == [Op(",")] + (Print(next[0], 0) + PrintMore(next[1..]));
    }
  }

  /** One `"," expr` step of the argument loop. */
  lemma ArgsTailStep(acc: seq<Expr>, e: Expr, x: seq<Token>, tail: seq<Token>, sc: Scope)
    requires Expression(x + tail, sc) == Ok((e, tail))
    ensures ArgsTail(acc, [Op(",")] + (x + tail), sc) == ArgsTail(acc + [e], tail, sc)
  {
    Front(Op(","), x, tail);
  }

  /** A comma, an argument and the tokens behind it, regrouped. */
  lemma CommaRegroup(x: seq<Token>, m: seq<Token>, rest: seq<Token>)
    ensures [Op(",")] + x + m + [Op(")")] + rest == [Op(",")] + (x + (m + [Op(")")] + rest))
  {
  }
}
