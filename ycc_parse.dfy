/** The recursive-descent parser of ycc.c as functions of the remaining
    token list: each returns the node its C counterpart builds and the
    tokens left after it, or the error `error_at` reports. */
module YccParse {
  import opened Errors
  import Ast
  import opened YccLex

  /** A node: a number, or one of the eight binary kinds with its operands.
      These are all the kinds ycc.c has. */
  datatype Node = Number(val: int) | Binary(op: Ast.BinOp, lhs: Node, rhs: Node)

  // ---------------------------------------------------------------------
  // The cursor primitives

  /** The test of `consume` and `expect`: the current token is reserved and
      its text is `op`. */
  predicate Consumes(ts: seq<Token>, op: string) {
    |ts| > 0 && ts[0].kind == Reserved && ts[0].text == op
  }

  /** The offset a diagnostic points at: the current token's. */
  function Here(ts: seq<Token>): nat {
    if |ts| > 0 then ts[0].pos else 0
  }

  /** `expect`: the cursor moves past `op`, or the parse fails there. */
  function ExpectOp(ts: seq<Token>, op: string): (r: Result<seq<Token>>)
    ensures r.Ok? <==> Consumes(ts, op)
    ensures r.Ok? ==> r.value == ts[1..]
    ensures r.Fail? ==> r.error == ExpectedOp(Here(ts), op)
  {
    if Consumes(ts, op) then Ok(ts[1..]) else Fail(ExpectedOp(Here(ts), op))
  }

  /** `expect_number`: the value of the current number token, or a failure there. */
  function ExpectNumber(ts: seq<Token>): (r: Result<(int, seq<Token>)>)
    ensures r.Ok? <==> |ts| > 0 && ts[0].kind == Num
    ensures r.Ok? ==> r.value == (ts[0].val, ts[1..])
    ensures r.Fail? ==> r.error == ExpectedNumber(Here(ts))
  {
    if |ts| > 0 && ts[0].kind == Num then Ok((ts[0].val, ts[1..])) else Fail(ExpectedNumber(Here(ts)))
  }

  predicate AtEof(ts: seq<Token>) {
    |ts| > 0 && ts[0].kind == Eof
  }

  // ---------------------------------------------------------------------
  // The grammar. Each rule consumes at least one token on success; the
  // `...Tail` functions are the `for (;;)` loops that extend a node.

  /** `expr = equality`. */
  function Expression(ts: seq<Token>): (r: Result<(Node, seq<Token>)>)
    ensures r.Ok? ==> |r.value.1| < |ts|
    decreases |ts|, 7
  {
    Equality(ts)
  }

  /** `equality = relational ("==" relational | "!=" relational)*`. */
  function Equality(ts: seq<Token>): (r: Result<(Node, seq<Token>)>)
    ensures r.Ok? ==> |r.value.1| < |ts|
    decreases |ts|, 6
  {
    var lr :- Relational(ts);
    EqualityTail(lr.0, lr.1)
  }

  function EqualityTail(node: Node, ts: seq<Token>): (r: Result<(Node, seq<Token>)>)
    ensures r.Ok? ==> |r.value.1| <= |ts|
    decreases |ts|, 0
  {
    if Consumes(ts, "==") then
      var rr :- Relational(ts[1..]);
      EqualityTail(Binary(Ast.Eq, node, rr.0), rr.1)
    else if Consumes(ts, "!=") then
      var rr :- Relational(ts[1..]);
      EqualityTail(Binary(Ast.Ne, node, rr.0), rr.1)
    else Ok((node, ts))
  }

  /** `relational = add ("<" add | "<=" add | ">" add | ">=" add)*`; `>` and
      `>=` build `Lt` and `Le` with the operands swapped. */
  function Relational(ts: seq<Token>): (r: Result<(Node, seq<Token>)>)
    ensures r.Ok? ==> |r.value.1| < |ts|
    decreases |ts|, 5
  {
    var lr :- AddExpr(ts);
    RelationalTail(lr.0, lr.1)
  }

  function RelationalTail(node: Node, ts: seq<Token>): (r: Result<(Node, seq<Token>)>)
    ensures r.Ok? ==> |r.value.1| <= |ts|
    decreases |ts|, 0
  {
    if Consumes(ts, "<") then
      var rr :- AddExpr(ts[1..]);
      RelationalTail(Binary(Ast.Lt, node, rr.0), rr.1)
    else if Consumes(ts, "<=") then
      var rr :- AddExpr(ts[1..]);
      RelationalTail(Binary(Ast.Le, node, rr.0), rr.1)
    else if Consumes(ts, ">") then
      var rr :- AddExpr(ts[1..]);
      RelationalTail(Binary(Ast.Lt, rr.0, node), rr.1)
    else if Consumes(ts, ">=") then
      var rr :- AddExpr(ts[1..]);
      RelationalTail(Binary(Ast.Le, rr.0, node), rr.1)
    else Ok((node, ts))
  }

  /** `add = mul ("+" mul | "-" mul)*`. */
  function AddExpr(ts: seq<Token>): (r: Result<(Node, seq<Token>)>)
    ensures r.Ok? ==> |r.value.1| < |ts|
    decreases |ts|, 4
  {
    var lr :- MulExpr(ts);
    AddTail(lr.0, lr.1)
  }

  function AddTail(node: Node, ts: seq<Token>): (r: Result<(Node, seq<Token>)>)
    ensures r.Ok? ==> |r.value.1| <= |ts|
    decreases |ts|, 0
  {
    if Consumes(ts, "+") then
      var rr :- MulExpr(ts[1..]);
      AddTail(Binary(Ast.Add, node, rr.0), rr.1)
    else if Consumes(ts, "-") then
      var rr :- MulExpr(ts[1..]);
      AddTail(Binary(Ast.Sub, node, rr.0), rr.1)
    else Ok((node, ts))
  }

  /** `mul = unary ("*" unary | "/" unary)*`. */
  function MulExpr(ts: seq<Token>): (r: Result<(Node, seq<Token>)>)
    ensures r.Ok? ==> |r.value.1| < |ts|
    decreases |ts|, 3
  {
    var lr :- UnaryExpr(ts);
    MulTail(lr.0, lr.1)
  }

  function MulTail(node: Node, ts: seq<Token>): (r: Result<(Node, seq<Token>)>)
    ensures r.Ok? ==> |r.value.1| <= |ts|
    decreases |ts|, 0
  {
    if Consumes(ts, "*") then
      var rr :- UnaryExpr(ts[1..]);
      MulTail(Binary(Ast.Mul, node, rr.0), rr.1)
    else if Consumes(ts, "/") then
      var rr :- UnaryExpr(ts[1..]);
      MulTail(Binary(Ast.Div, node, rr.0), rr.1)
    else Ok((node, ts))
  }

  /** `unary = ("+" | "-")? unary | primary`; `-x` is `0 - x`. */
  function UnaryExpr(ts: seq<Token>): (r: Result<(Node, seq<Token>)>)
    ensures r.Ok? ==> |r.value.1| < |ts|
    decreases |ts|, 2
  {
    if Consumes(ts, "+") then UnaryExpr(ts[1..])
    else if Consumes(ts, "-") then
      var er :- UnaryExpr(ts[1..]);
      Ok((Binary(Ast.Sub, Number(0), er.0), er.1))
    else Primary(ts)
  }

  /** `primary = "(" expr ")" | num`. */
  function Primary(ts: seq<Token>): (r: Result<(Node, seq<Token>)>)
    ensures r.Ok? ==> |r.value.1| < |ts|
    decreases |ts|, 1
  {
    if Consumes(ts, "(") then
      var er :- Expression(ts[1..]);
      var rest :- ExpectOp(er.1, ")");
      Ok((er.0, rest))
    else
      var nr :- ExpectNumber(ts);
      Ok((Number(nr.0), nr.1))
  }

  // ---------------------------------------------------------------------
  // The parser as it runs

  /** A routine's outcome `r`, with the cursor left at `rest`, is what the
      rule's function `s` computes. */
  predicate Agrees(r: Result<Node>, rest: seq<Token>, s: Result<(Node, seq<Token>)>) {
    match s
    case Ok(p) => r == Ok(p.0) && rest == p.1
    case Fail(e) => r == Fail(e)
  }

  /** The global `token`, the routines that move it, and the parsing
      routines built on them. */
  class Parser {
    /** The tokens from the global `token` on. */
    var token: seq<Token>

    constructor (ts: seq<Token>)
      ensures token == ts
    {
      token := ts;
    }

    /** `consume`: advances past `op` when the current token is it. */
    method Consume(op: string) returns (ok: bool)
      modifies this
      ensures ok == Consumes(old(token), op)
      ensures token == if ok then old(token)[1..] else old(token)
    {
      if |token| == 0 || token[0].kind != Reserved || |op| != |token[0].text| || token[0].text != op {
        return false;
      }
      token := token[1..];
      return true;
    }

    /** `expect`. */
    method Expect(op: string) returns (r: Result<()>)
      modifies this
      ensures r.Ok? <==> Consumes(old(token), op)
      ensures r.Ok? ==> token == old(token)[1..]
      ensures r.Fail? ==> r.error == ExpectedOp(Here(old(token)), op)
    {
      if |token| == 0 || token[0].kind != Reserved || |op| != |token[0].text| || token[0].text != op {
        return Fail(ExpectedOp(Here(token), op));
      }
      token := token[1..];
      return Ok(());
    }

    /** `expect_number`. */
    method ExpectNum() returns (r: Result<int>)
      modifies this
      ensures r.Ok? <==> ExpectNumber(old(token)).Ok?
      ensures r.Ok? ==> r.value == old(token)[0].val && token == old(token)[1..]
      ensures r.Fail? ==> r.error == ExpectedNumber(Here(old(token)))
    {
      if |token| == 0 || token[0].kind != Num {
        return Fail(ExpectedNumber(Here(token)));
      }
      r := Ok(token[0].val);
      token := token[1..];
    }

    method ParseExpr() returns (r: Result<Node>)
      modifies this
      ensures Agrees(r, token, Expression(old(token)))
      decreases |token|, 7
    {
      r := ParseEquality();
    }

    method ParseEquality() returns (r: Result<Node>)
      modifies this
      ensures Agrees(r, token, Equality(old(token)))
      decreases |token|, 6
    {
      ghost var ts := token;
      var node :- ParseRelational();
      while true
        invariant EqualityTail(node, token) == Equality(ts)
        decreases |token|
      {
        var ok := Consume("==");
        if ok {
          var rhs :- ParseRelational();
          node := Binary(Ast.Eq, node, rhs);
          continue;
        }
        ok := Consume("!=");
        if ok {
          var rhs :- ParseRelational();
          node := Binary(Ast.Ne, node, rhs);
          continue;
        }
        return Ok(node);
      }
    }

    method ParseRelational() returns (r: Result<Node>)
      modifies this
      ensures Agrees(r, token, Relational(old(token)))
      decreases |token|, 5
    {
      ghost var ts := token;
      var node :- ParseAdd();
      while true
        invariant RelationalTail(node, token) == Relational(ts)
        decreases |token|
      {
        var ok := Consume("<");
        if ok {
          var rhs :- ParseAdd();
          node := Binary(Ast.Lt, node, rhs);
          continue;
        }
        ok := Consume("<=");
        if ok {
          var rhs :- ParseAdd();
          node := Binary(Ast.Le, node, rhs);
          continue;
        }
        ok := Consume(">");
        if ok {
          var lhs :- ParseAdd();
          node := Binary(Ast.Lt, lhs, node);
          continue;
        }
        ok := Consume(">=");
        if ok {
          var lhs :- ParseAdd();
          node := Binary(Ast.Le, lhs, node);
          continue;
        }
        return Ok(node);
      }
    }

    method ParseAdd() returns (r: Result<Node>)
      modifies this
      ensures Agrees(r, token, AddExpr(old(token)))
      decreases |token|, 4
    {
      ghost var ts := token;
      var node :- ParseMul();
      while true
        invariant AddTail(node, token) == AddExpr(ts)
        decreases |token|
      {
        var ok := Consume("+");
        if ok {
          var rhs :- ParseMul();
          node := Binary(Ast.Add, node, rhs);
          continue;
        }
        ok := Consume("-");
        if ok {
          var rhs :- ParseMul();
          node := Binary(Ast.Sub, node, rhs);
          continue;
        }
        return Ok(node);
      }
    }

    method ParseMul() returns (r: Result<Node>)
      modifies this
      ensures Agrees(r, token, MulExpr(old(token)))
      decreases |token|, 3
    {
      ghost var ts := token;
      var node :- ParseUnary();
      while true
        invariant MulTail(node, token) == MulExpr(ts)
        decreases |token|
      {
        var ok := Consume("*");
        if ok {
          var rhs :- ParseUnary();
          node := Binary(Ast.Mul, node, rhs);
          continue;
        }
        ok := Consume("/");
        if ok {
          var rhs :- ParseUnary();
          node := Binary(Ast.Div, node, rhs);
          continue;
        }
        return Ok(node);
      }
    }

    method ParseUnary() returns (r: Result<Node>)
      modifies this
      ensures Agrees(r, token, UnaryExpr(old(token)))
      decreases |token|, 2
    {
      var ok := Consume("+");
      if ok {
        r := ParseUnary();
        return;
      }
      ok := Consume("-");
      if ok {
        var e :- ParseUnary();
        return Ok(Binary(Ast.Sub, Number(0), e));
      }
      r := ParsePrimary();
    }

    method ParsePrimary() returns (r: Result<Node>)
      modifies this
      ensures Agrees(r, token, Primary(old(token)))
      decreases |token|, 1
    {
      var ok := Consume("(");
      if ok {
        var node :- ParseExpr();
        var closed :- Expect(")");
        return Ok(node);
      }
      var val :- ExpectNum();
      return Ok(Number(val));
    }
  }
}
