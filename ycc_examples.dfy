/** Expressions run through ycc.c's lexer, parser and evaluator by hand:
    precedence, unary minus and the operand swap of `>`. */
module YccExamples {
  import opened Errors
  import Ast
  import Lexer = Tokenize
  import opened YccLex
  import opened YccParse
  import opened YccGen

  /** A lone digit is a number token of that digit's value. */
  lemma DigitAt(s: string, i: nat)
    requires i < |s| && Lexer.IsDigit(s[i]) && (i + 1 == |s| || !Lexer.IsDigit(s[i + 1]))
    ensures ScanAt(s, i) == Emit(Token(Num, i, [s[i]], Lexer.DigitValue(s[i])), i + 1)
  {
    assert Lexer.DigitsEnd(s, i + 1) == i + 1;
    assert Lexer.DigitsEnd(s, i) == i + 1;
    assert s[i..i + 1] == [s[i]];
    OneDigit(s[i]);
    assert !Lexer.IsSpace(s[i]) && !Lexer.IsTwoCharOp(s, i) && !IsOpChar(s[i]);
  }

  lemma OneDigit(c: char)
    requires Lexer.IsDigit(c)
    ensures Lexer.Decimal([c]) == Lexer.DigitValue(c)
  {
    assert [c][..0] == [];
  }

  lemma TwoDigits(c: char, d: char)
    requires Lexer.IsDigit(c) && Lexer.IsDigit(d)
    ensures Lexer.Decimal([c, d]) == 10 * Lexer.DigitValue(c) + Lexer.DigitValue(d)
  {
    assert [c, d][..1] == [c];
    OneDigit(c);
  }

  /** An operator character not starting a comparison is a one-character
      reserved token. */
  lemma OpAt(s: string, i: nat)
    requires i < |s| && IsOpChar(s[i]) && (i + 1 == |s| || s[i + 1] != '=')
    ensures ScanAt(s, i) == Emit(Token(Reserved, i, [s[i]], 0), i + 1)
  {
  }

  /** Prepending one token to a successful scan. */
  lemma Cons(t: Token, ts: seq<Token>)
    ensures Prepend([t], Ok(ts)) == Ok([t] + ts)
  {
  }

  /** At the EOF token every loop of the grammar stops. */
  lemma TailsStop(node: Node, ts: seq<Token>)
    requires |ts| > 0 && ts[0].kind == Eof
    ensures MulTail(node, ts) == Ok((node, ts)) && AddTail(node, ts) == Ok((node, ts))
    ensures RelationalTail(node, ts) == Ok((node, ts)) && EqualityTail(node, ts) == Ok((node, ts))
  {
  }

  /** An expression whose unary operand reaches the EOF token is that operand. */
  lemma WholeUnary(ts: seq<Token>, node: Node, rest: seq<Token>)
    requires UnaryExpr(ts) == Ok((node, rest)) && |rest| > 0 && rest[0].kind == Eof
    ensures Expression(ts) == Ok((node, rest))
  {
    TailsStop(node, rest);
    assert MulExpr(ts) == Ok((node, rest));
    assert AddExpr(ts) == Ok((node, rest));
    assert Relational(ts) == Ok((node, rest));
  }

  /** The tree `main` parses, from the tokens and the parse of them. */
  lemma ParsedFrom(s: string, ts: seq<Token>, node: Node, rest: seq<Token>)
    requires Lex(s, 0) == Ok(ts) && Expression(ts) == Ok((node, rest))
    ensures Parsed(s) == Ok(node)
  {
  }

  /** The tokens of `5+6*7`. */
  lemma LexFiveSixSeven()
    ensures Lex("5+6*7", 0) ==
      Ok([Token(Num, 0, "5", 5), Token(Reserved, 1, "+", 0), Token(Num, 2, "6", 6),
          Token(Reserved, 3, "*", 0), Token(Num, 4, "7", 7), Token(Eof, 5, "", 0)])
  {
    var s := "5+6*7";
    var t5, plus, t6, times, t7, eof :=
      Token(Num, 0, "5", 5), Token(Reserved, 1, "+", 0), Token(Num, 2, "6", 6),
      Token(Reserved, 3, "*", 0), Token(Num, 4, "7", 7), Token(Eof, 5, "", 0);
    assert Lex(s, 5) == Ok([eof]);
    DigitAt(s, 4);
    LexEmit(s, 4);
    assert [t7] + [eof] == [t7, eof];
    OpAt(s, 3);
    LexEmit(s, 3);
    assert [times] + [t7, eof] == [times, t7, eof];
    DigitAt(s, 2);
    LexEmit(s, 2);
    assert [t6] + [times, t7, eof] == [t6, times, t7, eof];
    OpAt(s, 1);
    LexEmit(s, 1);
    assert [plus] + [t6, times, t7, eof] == [plus, t6, times, t7, eof];
    DigitAt(s, 0);
    LexEmit(s, 0);
    assert [t5] + [plus, t6, times, t7, eof] == [t5, plus, t6, times, t7, eof];
  }

  /** The tree of `5+6*7`'s tokens: `*` binds tighter than `+`. */
  lemma ParseFiveSixSeven()
    ensures var eof := Token(Eof, 5, "", 0);
            Expression([Token(Num, 0, "5", 5), Token(Reserved, 1, "+", 0), Token(Num, 2, "6", 6),
                        Token(Reserved, 3, "*", 0), Token(Num, 4, "7", 7), eof]) ==
            Ok((Binary(Ast.Add, Number(5), Binary(Ast.Mul, Number(6), Number(7))), [eof]))
  {
    var t5, plus, t6, times, t7, eof :=
      Token(Num, 0, "5", 5), Token(Reserved, 1, "+", 0), Token(Num, 2, "6", 6),
      Token(Reserved, 3, "*", 0), Token(Num, 4, "7", 7), Token(Eof, 5, "", 0);
    var mul := Binary(Ast.Mul, Number(6), Number(7));
    var sum := Binary(Ast.Add, Number(5), mul);
    TailsStop(Number(7), [eof]);
    TailsStop(mul, [eof]);
    TailsStop(sum, [eof]);
    assert UnaryExpr([t7, eof]) == Ok((Number(7), [eof]));
    assert MulExpr([t7, eof]) == Ok((Number(7), [eof]));
    assert [times, t7, eof][1..] == [t7, eof];
    assert MulTail(Number(6), [times, t7, eof]) == Ok((mul, [eof]));
    assert UnaryExpr([t6, times, t7, eof]) == Ok((Number(6), [times, t7, eof]));
    assert MulExpr([t6, times, t7, eof]) == Ok((mul, [eof]));
    assert [plus, t6, times, t7, eof][1..] == [t6, times, t7, eof];
    assert AddTail(Number(5), [plus, t6, times, t7, eof]) == Ok((sum, [eof]));
    assert UnaryExpr([t5, plus, t6, times, t7, eof]) == Ok((Number(5), [plus, t6, times, t7, eof]));
    assert MulTail(Number(5), [plus, t6, times, t7, eof]) == Ok((Number(5), [plus, t6, times, t7, eof]));
    assert MulExpr([t5, plus, t6, times, t7, eof]) == Ok((Number(5), [plus, t6, times, t7, eof]));
    assert AddExpr([t5, plus, t6, times, t7, eof]) == Ok((sum, [eof]));
    assert Relational([t5, plus, t6, times, t7, eof]) == Ok((sum, [eof]));
  }

  /** `5+6*7` evaluates to 47. */
  lemma FiveSixSeven()
    ensures Parsed("5+6*7") == Ok(Binary(Ast.Add, Number(5), Binary(Ast.Mul, Number(6), Number(7))))
    ensures Eval(Parsed("5+6*7").value) == Some(47)
  {
    var eof := Token(Eof, 5, "", 0);
    var ts := [Token(Num, 0, "5", 5), Token(Reserved, 1, "+", 0), Token(Num, 2, "6", 6),
               Token(Reserved, 3, "*", 0), Token(Num, 4, "7", 7), eof];
    var tree := Binary(Ast.Add, Number(5), Binary(Ast.Mul, Number(6), Number(7)));
    LexFiveSixSeven();
    ParseFiveSixSeven();
    ParsedFrom("5+6*7", ts, tree, [eof]);
    EvalFiveSixSeven();
  }

  lemma EvalFiveSixSeven()
    ensures Eval(Binary(Ast.Add, Number(5), Binary(Ast.Mul, Number(6), Number(7)))) == Some(47)
  {
  }

  /** A two-digit number token. */
  lemma TwoDigitsAt(s: string, i: nat)
    requires i + 1 < |s| && Lexer.IsDigit(s[i]) && Lexer.IsDigit(s[i + 1])
    requires i + 2 == |s| || !Lexer.IsDigit(s[i + 2])
    ensures ScanAt(s, i) == Emit(Token(Num, i, s[i..i + 2], 10 * Lexer.DigitValue(s[i]) + Lexer.DigitValue(s[i + 1])), i + 2)
  {
    assert Lexer.DigitsEnd(s, i + 2) == i + 2;
    assert Lexer.DigitsEnd(s, i + 1) == i + 2;
    assert Lexer.DigitsEnd(s, i) == i + 2;
    assert s[i..i + 2] == [s[i], s[i + 1]];
    TwoDigits(s[i], s[i + 1]);
    assert !Lexer.IsSpace(s[i]) && !Lexer.IsTwoCharOp(s, i) && !IsOpChar(s[i]);
  }

  /** The tokens of `- -10`. */
  lemma LexMinusMinusTen()
    ensures Lex("- -10", 0) ==
      Ok([Token(Reserved, 0, "-", 0), Token(Reserved, 2, "-", 0), Token(Num, 3, "10", 10), Token(Eof, 5, "", 0)])
  {
    var s := "- -10";
    var m0, m2, t10, eof := Token(Reserved, 0, "-", 0), Token(Reserved, 2, "-", 0), Token(Num, 3, "10", 10), Token(Eof, 5, "", 0);
    assert Lex(s, 5) == Ok([eof]);
    TwoDigitsAt(s, 3);
    assert s[3..5] == "10";
    LexEmit(s, 3);
    assert [t10] + [eof] == [t10, eof];
    OpAt(s, 2);
    LexEmit(s, 2);
    assert [m2] + [t10, eof] == [m2, t10, eof];
    assert Lex(s, 1) == Lex(s, 2);
    OpAt(s, 0);
    LexEmit(s, 0);
    assert [m0] + [m2, t10, eof] == [m0, m2, t10, eof];
  }

  /** The tree of `- -10`'s tokens: each `-` is a subtraction from 0. */
  lemma ParseMinusMinusTen()
    ensures var eof := Token(Eof, 5, "", 0);
            Expression([Token(Reserved, 0, "-", 0), Token(Reserved, 2, "-", 0), Token(Num, 3, "10", 10), eof]) ==
            Ok((Binary(Ast.Sub, Number(0), Binary(Ast.Sub, Number(0), Number(10))), [eof]))
  {
    var m0, m2, t10, eof := Token(Reserved, 0, "-", 0), Token(Reserved, 2, "-", 0), Token(Num, 3, "10", 10), Token(Eof, 5, "", 0);
    var inner := Binary(Ast.Sub, Number(0), Number(10));
    assert UnaryExpr([t10, eof]) == Ok((Number(10), [eof]));
    assert [m2, t10, eof][1..] == [t10, eof];
    assert UnaryExpr([m2, t10, eof]) == Ok((inner, [eof]));
    assert [m0, m2, t10, eof][1..] == [m2, t10, eof];
    assert UnaryExpr([m0, m2, t10, eof]) == Ok((Binary(Ast.Sub, Number(0), inner), [eof]));
    WholeUnary([m0, m2, t10, eof], Binary(Ast.Sub, Number(0), inner), [eof]);
  }

  /** `- -10` evaluates to 10. */
  lemma MinusMinusTen()
    ensures Parsed("- -10") == Ok(Binary(Ast.Sub, Number(0), Binary(Ast.Sub, Number(0), Number(10))))
    ensures Eval(Parsed("- -10").value) == Some(10)
  {
    var eof := Token(Eof, 5, "", 0);
    var ts := [Token(Reserved, 0, "-", 0), Token(Reserved, 2, "-", 0), Token(Num, 3, "10", 10), eof];
    LexMinusMinusTen();
    ParseMinusMinusTen();
    ParsedFrom("- -10", ts, Binary(Ast.Sub, Number(0), Binary(Ast.Sub, Number(0), Number(10))), [eof]);
    EvalMinusMinusTen();
  }

  lemma EvalMinusMinusTen()
    ensures Eval(Binary(Ast.Sub, Number(0), Binary(Ast.Sub, Number(0), Number(10)))) == Some(10)
  {
  }

  /** The tokens of `1>0`. */
  lemma LexGreater()
    ensures Lex("1>0", 0) ==
      Ok([Token(Num, 0, "1", 1), Token(Reserved, 1, ">", 0), Token(Num, 2, "0", 0), Token(Eof, 3, "", 0)])
  {
    var s := "1>0";
    var t1, gt, t0, eof := Token(Num, 0, "1", 1), Token(Reserved, 1, ">", 0), Token(Num, 2, "0", 0), Token(Eof, 3, "", 0);
    assert Lex(s, 3) == Ok([eof]);
    DigitAt(s, 2);
    LexEmit(s, 2);
    assert [t0] + [eof] == [t0, eof];
    OpAt(s, 1);
    LexEmit(s, 1);
    assert [gt] + [t0, eof] == [gt, t0, eof];
    DigitAt(s, 0);
    LexEmit(s, 0);
    assert [t1] + [gt, t0, eof] == [t1, gt, t0, eof];
  }

  /** `1>0` is parsed as `0<1`, and evaluates to 1. */
  lemma GreaterSwaps()
    ensures Parsed("1>0") == Ok(Binary(Ast.Lt, Number(0), Number(1)))
    ensures Eval(Parsed("1>0").value) == Some(1)
  {
    var t1, gt, t0, eof := Token(Num, 0, "1", 1), Token(Reserved, 1, ">", 0), Token(Num, 2, "0", 0), Token(Eof, 3, "", 0);
    LexGreater();
    GreaterTokens();
    ParsedFrom("1>0", [t1, gt, t0, eof], Binary(Ast.Lt, Number(0), Number(1)), [eof]);
    EvalLess();
  }

  lemma EvalLess()
    ensures Eval(Binary(Ast.Lt, Number(0), Number(1))) == Some(1)
  {
  }

  /** The tree of `1>0`'s tokens. */
  lemma GreaterTokens()
    ensures var t1, gt, t0, eof := Token(Num, 0, "1", 1), Token(Reserved, 1, ">", 0), Token(Num, 2, "0", 0), Token(Eof, 3, "", 0);
            Expression([t1, gt, t0, eof]) == Ok((Binary(Ast.Lt, Number(0), Number(1)), [eof]))
  {
    var t1, gt, t0, eof := Token(Num, 0, "1", 1), Token(Reserved, 1, ">", 0), Token(Num, 2, "0", 0), Token(Eof, 3, "", 0);
    var lt := Binary(Ast.Lt, Number(0), Number(1));
    TailsStop(Number(0), [eof]);
    TailsStop(lt, [eof]);
    assert UnaryExpr([t0, eof]) == Ok((Number(0), [eof]));
    assert MulExpr([t0, eof]) == Ok((Number(0), [eof]));
    assert AddExpr([t0, eof]) == Ok((Number(0), [eof]));
    assert [gt, t0, eof][1..] == [t0, eof];
    assert RelationalTail(Number(1), [gt, t0, eof]) == Ok((lt, [eof]));
    assert UnaryExpr([t1, gt, t0, eof]) == Ok((Number(1), [gt, t0, eof]));
    assert MulExpr([t1, gt, t0, eof]) == Ok((Number(1), [gt, t0, eof]));
    assert AddExpr([t1, gt, t0, eof]) == Ok((Number(1), [gt, t0, eof]));
    assert Relational([t1, gt, t0, eof]) == Ok((lt, [eof]));
  }
}
