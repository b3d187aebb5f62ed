/** Consequences of the parse.c grammar that follow from the round trip:
    how `>`, `>=`, unary `+`/`-` and `a[i]` are desugared, which way the
    operators associate and bind, how declarators build types, how the
    symbol tables resolve names, and what a declaration yields. */
module ParseFacts {
  import opened Errors
  import opened Types
  import opened Ast
  import opened Tokenize
  import opened ParseSpec
  import opened ParseProps

  // ---------------------------------------------------------------------
  // Desugarings

  /** `>` swaps its operands in the relational loop, as `x > node` turns into `node < x`. */
  lemma GreaterStep(node: Expr, ts: seq<Token>, x: Expr, tail: seq<Token>, sc: Scope)
    requires |ts| > 0 && ts[0] == Op(">") && AddExpr(ts[1..], sc) == Ok((x, tail))
    ensures RelationalTail(node, ts, sc) == RelationalTail(Bin(Lt, x, node), tail, sc)
  {
  }

  lemma GreaterEqualStep(node: Expr, ts: seq<Token>, x: Expr, tail: seq<Token>, sc: Scope)
    requires |ts| > 0 && ts[0] == Op(">=") && AddExpr(ts[1..], sc) == Ok((x, tail))
    ensures RelationalTail(node, ts, sc) == RelationalTail(Bin(Le, x, node), tail, sc)
  {
  }

  /** The relational loop stops at a token that is not a relational operator. */
  lemma RelationalStops(node: Expr, rest: seq<Token>, sc: Scope)
    requires Stops(rest, 2)
    ensures RelationalTail(node, rest, sc) == Ok((node, rest))
  {
  }

  /** `a > b` is read as `b < a`; a relational left operand is read first,
      so `a < b > c` is `c < (a < b)`. */
  lemma GreaterSwaps(a: Expr, b: Expr, rest: seq<Token>, sc: Scope)
    requires Printable(a, sc) && Printable(b, sc) && Stops(rest, 2)
    ensures Relational(Print(a, 2) + [Op(">")] + Print(b, 3) + rest, sc) == Ok((Bin(Lt, b, a), rest))
  {
    var tail := [Op(">")] + (Print(b, 3) + rest);
    Regroup3(Print(a, 2), [Op(">")], Print(b, 3), rest);
    RelationalLeft(a, tail, sc);
    RoundTripAdd(b, rest, sc);
    GreaterStep(a, tail, b, rest, sc);
    RelationalStops(Bin(Lt, b, a), rest, sc);
  }

  /** `a >= b` is read as `b <= a`. */
  lemma GreaterEqualSwaps(a: Expr, b: Expr, rest: seq<Token>, sc: Scope)
    requires Printable(a, sc) && Printable(b, sc) && Stops(rest, 2)
    ensures Relational(Print(a, 2) + [Op(">=")] + Print(b, 3) + rest, sc) == Ok((Bin(Le, b, a), rest))
  {
    var tail := [Op(">=")] + (Print(b, 3) + rest);
    Regroup3(Print(a, 2), [Op(">=")], Print(b, 3), rest);
    RelationalLeft(a, tail, sc);
    RoundTripAdd(b, rest, sc);
    GreaterEqualStep(a, tail, b, rest, sc);
    RelationalStops(Bin(Le, b, a), rest, sc);
  }

  /** Unary minus is subtraction from zero. */
  lemma UnaryMinus(e: Expr, rest: seq<Token>, sc: Scope)
    requires Printable(e, sc) && Stops(rest, 5)
    ensures UnaryExpr([Op("-")] + Print(e, 5) + rest, sc) == Ok((Bin(Sub, N(0), e), rest))
  {
    var ts := [Op("-")] + Print(e, 5) + rest;
    assert ts[1..] == Print(e, 5) + rest;
    RoundTripUnary(e, rest, sc);
  }

  /** Unary plus leaves no node behind. */
  lemma UnaryPlus(e: Expr, rest: seq<Token>, sc: Scope)
    requires Printable(e, sc) && Stops(rest, 5)
    ensures UnaryExpr([Op("+")] + Print(e, 5) + rest, sc) == Ok((e, rest))
  {
    var ts := [Op("+")] + Print(e, 5) + rest;
    assert ts[1..] == Print(e, 5) + rest;
    RoundTripUnary(e, rest, sc);
  }

  /** One `[ expr ]` step of the postfix loop. */
  lemma SubscriptStep(node: Expr, ts: seq<Token>, i: Expr, tail: seq<Token>, sc: Scope)
    requires |ts| > 0 && ts[0] == Op("[") && Expression(ts[1..], sc) == Ok((i, tail))
    requires |tail| > 0 && tail[0] == Op("]")
    ensures PostfixTail(node, ts, sc) == PostfixTail(Deref(Bin(Add, node, i), None), tail[1..], sc)
  {
  }

  /** `a[i]` is read as `*(a + i)`. */
  lemma Subscript(a: Expr, i: Expr, rest: seq<Token>, sc: Scope)
    requires Printable(a, sc) && Printable(i, sc) && Stops(rest, 6)
    ensures PostfixExpr(Print(a, 7) + [Op("[")] + Print(i, 0) + [Op("]")] + rest, sc)
            == Ok((Deref(Bin(Add, a, i), None), rest))
  {
    var tail := [Op("[")] + (Print(i, 0) + ([Op("]")] + rest));
    Regroup4(Print(a, 7), [Op("[")], Print(i, 0), [Op("]")], rest);
    RoundTripPrimary(a, tail, sc);
    SubscriptTail(a, i, rest, sc);
  }

  /** After any node, `[ i ]` and a token that is not `[` make one `*(node + i)`. */
  lemma SubscriptTail(node: Expr, i: Expr, rest: seq<Token>, sc: Scope)
    requires Printable(i, sc) && Stops(rest, 6)
    ensures PostfixTail(node, [Op("[")] + (Print(i, 0) + ([Op("]")] + rest)), sc)
            == Ok((Deref(Bin(Add, node, i), None), rest))
  {
    var close := [Op("]")] + rest;
    var tail := [Op("[")] + (Print(i, 0) + close);
    Cons(Op("["), Print(i, 0) + close);
    RoundTripExpression(i, close, sc);
    Cons(Op("]"), rest);
    SubscriptStep(node, tail, i, close, sc);
    assert !Consumes(rest, "[");
  }

  lemma Regroup3(p: seq<Token>, x: seq<Token>, y: seq<Token>, rest: seq<Token>)
    ensures p + x + y + rest == p + (x + (y + rest))
  {
  }

  lemma Regroup4(p: seq<Token>, x: seq<Token>, y: seq<Token>, z: seq<Token>, rest: seq<Token>)
    ensures p + x + y + z + rest == p + (x + (y + (z + rest)))
  {
  }

  lemma Cons(t: Token, ts: seq<Token>)
    ensures |[t] + ts| > 0 && ([t] + ts)[0] == t && ([t] + ts)[1..] == ts
  {
  }

  // ---------------------------------------------------------------------
  // Associativity and precedence

  /** `a - b - c` is `(a - b) - c`. */
  lemma SubtractionLeftAssociative(a: Expr, b: Expr, c: Expr, rest: seq<Token>, sc: Scope)
    requires Printable(a, sc) && Printable(b, sc) && Printable(c, sc) && Stops(rest, 3)
    ensures AddExpr(Print(a, 3) + [Op("-")] + Print(b, 4) + [Op("-")] + Print(c, 4) + rest, sc)
            == Ok((Bin(Sub, Bin(Sub, a, b), c), rest))
  {
    var e := Bin(Sub, Bin(Sub, a, b), c);
    PrintSubSub(a, b, c, sc);
    RoundTripAdd(e, rest, sc);
  }

  lemma PrintSubSub(a: Expr, b: Expr, c: Expr, sc: Scope)
    requires Printable(a, sc) && Printable(b, sc) && Printable(c, sc)
    ensures var e := Bin(Sub, Bin(Sub, a, b), c);
            Printable(e, sc) && Print(e, 3) == Print(a, 3) + [Op("-")] + Print(b, 4) + [Op("-")] + Print(c, 4)
  {
  }

  /** `a = b = c` is `a = (b = c)`. */
  lemma AssignmentRightAssociative(a: Expr, b: Expr, c: Expr, rest: seq<Token>, sc: Scope)
    requires Printable(a, sc) && Printable(b, sc) && Printable(c, sc) && Stops(rest, 0)
    ensures AssignExpr(Print(a, 1) + [Op("=")] + Print(b, 1) + [Op("=")] + Print(c, 0) + rest, sc)
            == Ok((Assign(a, Assign(b, c, None), None), rest))
  {
    var e := Assign(a, Assign(b, c, None), None);
    PrintAssignAssign(a, b, c, sc);
    RoundTripAssign(e, rest, sc);
  }

  lemma PrintAssignAssign(a: Expr, b: Expr, c: Expr, sc: Scope)
    requires Printable(a, sc) && Printable(b, sc) && Printable(c, sc)
    ensures var e := Assign(a, Assign(b, c, None), None);
            Printable(e, sc) && Print(e, 0) == Print(a, 1) + [Op("=")] + Print(b, 1) + [Op("=")] + Print(c, 0)
  {
    assert Print(Assign(b, c, None), 0) == Print(b, 1) + [Op("=")] + Print(c, 0);
  }

  /** `a + b * c` is `a + (b * c)`. */
  lemma MultiplicationBindsTighter(a: Expr, b: Expr, c: Expr, rest: seq<Token>, sc: Scope)
    requires Printable(a, sc) && Printable(b, sc) && Printable(c, sc) && Stops(rest, 3)
    ensures AddExpr(Print(a, 3) + [Op("+")] + Print(b, 4) + [Op("*")] + Print(c, 5) + rest, sc)
            == Ok((Bin(Add, a, Bin(Mul, b, c)), rest))
  {
    var e := Bin(Add, a, Bin(Mul, b, c));
    PrintAddMul(a, b, c, sc);
    RoundTripAdd(e, rest, sc);
  }

  lemma PrintAddMul(a: Expr, b: Expr, c: Expr, sc: Scope)
    requires Printable(a, sc) && Printable(b, sc) && Printable(c, sc)
    ensures var e := Bin(Add, a, Bin(Mul, b, c));
            Printable(e, sc) && Print(e, 3) == Print(a, 3) + [Op("+")] + Print(b, 4) + [Op("*")] + Print(c, 5)
  {
    assert Print(Bin(Mul, b, c), 4) == Print(b, 4) + [Op("*")] + Print(c, 5);
  }

  /** `5 + 6 * 7` parses to `5 + (6 * 7)`. */
  lemma FivePlusSixTimesSeven(sc: Scope, rest: seq<Token>)
    requires Stops(rest, 0)
    ensures Expression([NumTok(5), Op("+"), NumTok(6), Op("*"), NumTok(7)] + rest, sc)
            == Ok((Bin(Add, N(5), Bin(Mul, N(6), N(7))), rest))
  {
    var e := Bin(Add, N(5), Bin(Mul, N(6), N(7)));
    assert Print(e, 0) == [NumTok(5), Op("+"), NumTok(6), Op("*"), NumTok(7)];
    RoundTripExpression(e, rest, sc);
  }

  // ---------------------------------------------------------------------
  // Calls

  /** A call keeps all its arguments, however many; `argnum` is their
      number, with no cap at the six argument registers. */
  lemma CallKeepsAllArguments(name: string, args: seq<Expr>, rest: seq<Token>, sc: Scope)
    requires forall i :: 0 <= i < |args| ==> Printable(args[i], sc)
    requires Stops(rest, 7)
    ensures Primary([IdentTok(name), Op("(")] + PrintArgs(args) + [Op(")")] + rest, sc)
            == Ok((Call(name, args, |args|, None), rest))
  {
    var e := Call(name, args, |args|, None);
    assert Print(e, 7) == [IdentTok(name), Op("(")] + PrintArgs(args) + [Op(")")];
    RoundTripPrimary(e, rest, sc);
  }

  // ---------------------------------------------------------------------
  // Names

  /** A name that resolves nowhere, not followed by `(`, is an error at its token. */
  lemma UndefinedName(tok: Token, rest: seq<Token>, sc: Scope)
    requires tok.kind == Ident && FindVar(sc, tok.text).None? && !Consumes(rest, "(")
    ensures Primary([tok] + rest, sc) == Fail(UndefinedVariable(tok.pos, tok.text))
  {
    assert ([tok] + rest)[1..] == rest;
  }

  /** A name followed by `(` is a call whatever the scope holds: calls are not resolved. */
  lemma CallsAreNotResolved(tok: Token, rest: seq<Token>, sc: Scope)
    requires tok.kind == Ident
    ensures Primary([tok, Op("("), Op(")")] + rest, sc) == Ok((Call(tok.text, [], 0, None), rest))
  {
    var ts := [tok, Op("("), Op(")")] + rest;
    assert ts[1..][0] == Op("(");
    assert ts[2..][0] == Op(")") && ts[2..][1..] == rest;
  }

  /** The variable just pushed as a local is what its name now finds. */
  lemma PushedLocalIsFound(sc: Scope, name: string, ty: Type)
    ensures var (v, sc1) := PushVar(sc, name, ty, true);
            FindVar(sc1, name) == Some(v) && v == Var(name, ty, true, 0)
  {
  }

  /** Pushing a variable changes the lookup of no other name. */
  lemma PushKeepsOtherNames(sc: Scope, name: string, ty: Type, isLocal: bool, other: string)
    requires other != name
    ensures FindVar(PushVar(sc, name, ty, isLocal).1, other) == FindVar(sc, other)
  {
    var sc1 := PushVar(sc, name, ty, isLocal).1;
    if isLocal {
      assert sc1.locals[1..] == sc.locals;
    } else {
      assert sc1.globals[1..] == sc.globals;
    }
  }

  /** A global is found only where no local has its name: locals shadow globals. */
  lemma LocalsShadowGlobals(sc: Scope, name: string, ty: Type)
    ensures var (v, sc1) := PushVar(sc, name, ty, false);
            FindVar(sc1, name) == if Lookup(sc.locals, name).Some? then Lookup(sc.locals, name) else Some(v)
  {
  }

  // ---------------------------------------------------------------------
  // Declarators

  /** `k` star tokens. */
  function StarToks(k: nat): (r: seq<Token>)
    ensures |r| == k
  {
    if k == 0 then [] else [Op("*")] + StarToks(k - 1)
  }

  /** One `[n]` per dimension. */
  function DimToks(dims: seq<int>): (r: seq<Token>)
    ensures |r| == 3 * |dims|
    decreases |dims|
  {
    if dims == [] then [] else [Op("["), Token(TokenKind.Num, 0, "", dims[0]), Op("]")] + DimToks(dims[1..])
  }

  lemma {:induction false} PointerToInside(t: Type, k: nat)
    ensures PointerTo(Ptr(t), k) == Ptr(PointerTo(t, k))
  {
    if k > 0 {
      PointerToInside(t, k - 1);
    }
  }

  /** The star loop reads `k` stars as `k` pointer levels. */
  lemma {:induction false} StarsRead(t: Type, k: nat, rest: seq<Token>)
    requires !Consumes(rest, "*")
    ensures Stars(t, StarToks(k) + rest) == (PointerTo(t, k), rest)
    decreases k
  {
    if k == 0 {
      assert StarToks(k) + rest == rest;
    } else {
      var ts := StarToks(k) + rest;
      assert ts[0] == Op("*") && ts[1..] == StarToks(k - 1) + rest;
      StarsRead(Ptr(t), k - 1, rest);
      PointerToInside(t, k - 1);
    }
  }

  /** `int` and `k` stars make the type `int` under `k` pointers. */
  lemma BaseTypeRead(k: nat, rest: seq<Token>)
    requires !Consumes(rest, "*")
    ensures BaseType([Op("int")] + StarToks(k) + rest) == Ok((PointerTo(Int, k), rest))
  {
    assert ([Op("int")] + StarToks(k) + rest)[1..] == StarToks(k) + rest;
    StarsRead(Int, k, rest);
  }

  /** Without `int` in front, a declaration's type is an error at that token. */
  lemma BaseTypeNeedsInt(ts: seq<Token>)
    requires !IsOp(ts, "int")
    ensures BaseType(ts) == Fail(ExpectedOp(Here(ts), "int"))
  {
  }

  /** `[n1][n2]...` wraps the base type in arrays, the first size outermost. */
  lemma {:induction false} TypeSuffixRead(base: Type, dims: seq<int>, rest: seq<Token>)
    requires !Consumes(rest, "[")
    ensures TypeSuffix(base, DimToks(dims) + rest) == Ok((ArrayOfDims(base, dims), rest))
    decreases |dims|
  {
    if dims == [] {
      assert DimToks(dims) + rest == rest;
    } else {
      var ts := DimToks(dims) + rest;
      var after := DimToks(dims[1..]) + rest;
      assert ts == [Op("["), Token(TokenKind.Num, 0, "", dims[0]), Op("]")] + after;
      assert ts[1..] == [Token(TokenKind.Num, 0, "", dims[0])] + ([Op("]")] + after);
      assert ExpectNumber(ts[1..]) == Ok((dims[0], [Op("]")] + after));
      assert ExpectOp([Op("]")] + after, "]") == Ok(after);
      TypeSuffixRead(base, dims[1..], rest);
    }
  }

  // ---------------------------------------------------------------------
  // Declarations

  /** A declaration whose declarator is followed by `;` pushes its variable
      and yields a null statement. */
  lemma DeclarationNullStep(ts: seq<Token>, bt: Type, afterType: seq<Token>, name: string, after: seq<Token>,
                            ty: Type, tail: seq<Token>, sc: Scope)
    requires BaseType(ts) == Ok((bt, afterType)) && ExpectIdent(afterType) == Ok((name, after))
    requires TypeSuffix(bt, after) == Ok((ty, tail)) && IsOp(tail, ";")
    ensures Declaration(ts, sc) == Ok(Parsed(Null, tail[1..], PushVar(sc, name, ty, true).1))
  {
  }

  /** A declaration whose declarator is followed by `= x ;` pushes its
      variable, reads `x` in the scope that already holds it, and yields
      the assignment. */
  lemma DeclarationInitStep(ts: seq<Token>, bt: Type, afterType: seq<Token>, name: string, after: seq<Token>,
                            ty: Type, tail: seq<Token>, x: Expr, semi: seq<Token>, sc: Scope)
    requires BaseType(ts) == Ok((bt, afterType)) && ExpectIdent(afterType) == Ok((name, after))
    requires TypeSuffix(bt, after) == Ok((ty, tail)) && IsOp(tail, "=")
    requires Expression(tail[1..], PushVar(sc, name, ty, true).1) == Ok((x, semi)) && IsOp(semi, ";")
    ensures var (v, sc1) := PushVar(sc, name, ty, true);
            Declaration(ts, sc) == Ok(Parsed(ExprStmt(Assign(VarRef(v, None), x, None)), semi[1..], sc1))
  {
  }

  /** `int *..*x[..];` pushes `x` with the declared type and yields a null statement. */
  lemma DeclarationWithoutInit(k: nat, name: string, dims: seq<int>, rest: seq<Token>, sc: Scope)
    ensures var (v, sc1) := PushVar(sc, name, ArrayOfDims(PointerTo(Int, k), dims), true);
            Declaration([Op("int")] + StarToks(k) + [IdentTok(name)] + DimToks(dims) + [Op(";")] + rest, sc)
            == Ok(Parsed(Null, rest, sc1))
  {
    var ty := ArrayOfDims(PointerTo(Int, k), dims);
    var ts := [Op("int")] + StarToks(k) + [IdentTok(name)] + DimToks(dims) + [Op(";")] + rest;
    var semi := [Op(";")] + rest;
    var afterName := DimToks(dims) + semi;
    var after := [IdentTok(name)] + afterName;
    assert ts == [Op("int")] + StarToks(k) + after;
    BaseTypeRead(k, after);
    assert ExpectIdent(after) == Ok((name, afterName));
    TypeSuffixRead(PointerTo(Int, k), dims, semi);
    assert semi[1..] == rest;
    DeclarationNullStep(ts, PointerTo(Int, k), after, name, afterName, ty, semi, sc);
  }

  /** No expression continues at a `;`. */
  lemma SemicolonStops(rest: seq<Token>)
    ensures Stops([Op(";")] + rest, 0)
  {
  }

  /** `int x = e;` pushes `x` before reading `e`, so `e` is read in a scope
      where `x` is already the innermost local, and yields the statement
      `x = e`. */
  lemma DeclarationWithInit(name: string, init: seq<Token>, e: Expr, rest: seq<Token>, sc: Scope)
    requires Expression(init + [Op(";")] + rest, Scope([Var(name, Int, true, 0)] + sc.locals, sc.globals))
             == Ok((e, [Op(";")] + rest))
    ensures Declaration([Op("int"), IdentTok(name), Op("=")] + init + [Op(";")] + rest, sc)
            == Ok(Parsed(ExprStmt(Assign(VarRef(Var(name, Int, true, 0), None), e, None)), rest,
                         Scope([Var(name, Int, true, 0)] + sc.locals, sc.globals)))
  {
    var semi := [Op(";")] + rest;
    var afterName := [Op("=")] + (init + semi);
    var after := [IdentTok(name)] + afterName;
    var ts := [Op("int"), IdentTok(name), Op("=")] + init + [Op(";")] + rest;
    assert ts == [Op("int")] + after;
    assert Stars(Int, after) == (Int, after);
    assert BaseType(ts) == Ok((Int, after));
    assert ExpectIdent(after) == Ok((name, afterName));
    assert TypeSuffix(Int, afterName) == Ok((Int, afterName));
    assert afterName[1..] == init + semi == init + [Op(";")] + rest;
    assert semi[1..] == rest;
    assert PushVar(sc, name, Int, true).1 == Scope([Var(name, Int, true, 0)] + sc.locals, sc.globals);
    DeclarationInitStep(ts, Int, after, name, afterName, Int, afterName, e, semi, sc);
  }

  /** In particular `int x = x;` is accepted: the initialiser's `x` is the
      variable being declared. */
  lemma DeclarationSeesItself(name: string, rest: seq<Token>, sc: Scope)
    ensures var x := Var(name, Int, true, 0);
            Declaration([Op("int"), IdentTok(name), Op("="), IdentTok(name), Op(";")] + rest, sc)
            == Ok(Parsed(ExprStmt(Assign(VarRef(x, None), VarRef(x, None), None)), rest,
                         Scope([x] + sc.locals, sc.globals)))
  {
    var x := Var(name, Int, true, 0);
    var sc1 := Scope([x] + sc.locals, sc.globals);
    var e := VarRef(x, None);
    assert Print(e, 0) == [IdentTok(name)];
    assert FindVar(sc1, name) == Some(x);
    SemicolonStops(rest);
    RoundTripExpression(e, [Op(";")] + rest, sc1);
    assert [IdentTok(name)] + [Op(";")] + rest == Print(e, 0) + ([Op(";")] + rest);
    DeclarationWithInit(name, [IdentTok(name)], e, rest, sc);
    assert [Op("int"), IdentTok(name), Op("=")] + [IdentTok(name)] + [Op(";")] + rest
        == [Op("int"), IdentTok(name), Op("="), IdentTok(name), Op(";")] + rest;
  }
}
