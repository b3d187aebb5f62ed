/** The lexer of ycc.c, the arithmetic-only compiler: the text of one
    expression to a token list ending in one EOF token. Its tokens are the
    comparison operators, the eight operator characters and decimal numbers;
    anything else is an invalid token. */
module YccLex {
  import opened Errors
  import Lexer = Tokenize

  datatype TokenKind = Reserved | Num | Eof

  /** A token: its kind, the offset of its first character, the characters
      it covers and, for a number, its value (0 otherwise, as `calloc`
      leaves it). */
  datatype Token = Token(kind: TokenKind, pos: nat, text: string, val: int)

  /** The one-character operators: the `strchr` set of `tokenize`. */
  predicate IsOpChar(c: char) {
    c == '+' || c == '-' || c == '*' || c == '/' || c == '<' || c == '>' || c == '(' || c == ')'
  }

  /** What one iteration of the scanning loop does at offset `i`. */
  datatype Scan = Skip | Emit(tok: Token, next: nat) | NoRule

  /** The rules of one loop iteration, in the order ycc.c tries them. */
  function ScanAt(s: string, i: nat): (r: Scan)
    requires i < |s|
    ensures r.Skip? <==> Lexer.IsSpace(s[i])
    ensures r.Emit? ==> r.tok.pos == i && i < r.next <= |s| && s[i..r.next] == r.tok.text && r.tok.kind != Eof
  {
    if Lexer.IsSpace(s[i]) then Skip
    else if Lexer.IsTwoCharOp(s, i) then Emit(Token(Reserved, i, s[i..i + 2], 0), i + 2)
    else if IsOpChar(s[i]) then Emit(Token(Reserved, i, [s[i]], 0), i + 1)
    else if Lexer.IsDigit(s[i]) then
      var j := Lexer.DigitsEnd(s, i);
      Emit(Token(Num, i, s[i..j], Lexer.Decimal(s[i..j])), j)
    else NoRule
  }

  /** A reserved token is a two-character comparison when one starts at its
      offset, and otherwise a single operator character. */
  lemma ScanReserved(s: string, i: nat)
    requires i < |s| && ScanAt(s, i).Emit? && ScanAt(s, i).tok.kind == Reserved
    ensures Lexer.IsTwoCharOp(s, i) ==> |ScanAt(s, i).tok.text| == 2
    ensures !Lexer.IsTwoCharOp(s, i) ==> ScanAt(s, i).tok.text == [s[i]] && IsOpChar(s[i])
  {
  }

  /** A number token is the maximal run of digits, valued in decimal. */
  lemma ScanNumber(s: string, i: nat)
    requires i < |s| && ScanAt(s, i).Emit? && ScanAt(s, i).tok.kind == Num
    ensures var r := ScanAt(s, i);
            Lexer.AllDigits(r.tok.text) && !Lexer.IsDigit(Lexer.CharAt(s, r.next))
            && r.tok.val == Lexer.Decimal(r.tok.text)
  {
  }

  /** No rule applies exactly when the character is none of whitespace, an
      operator character, a digit, or the start of a comparison. */
  lemma ScanNoRule(s: string, i: nat)
    requires i < |s|
    ensures ScanAt(s, i).NoRule? <==>
              !Lexer.IsSpace(s[i]) && !Lexer.IsTwoCharOp(s, i) && !IsOpChar(s[i]) && !Lexer.IsDigit(s[i])
  {
  }

  /** The `while (*p)` loop of `tokenize` from offset `i`, and the EOF token
      after it. */
  function Lex(s: string, i: nat): Result<seq<Token>>
    requires i <= |s|
    decreases |s| - i
  {
    if i == |s| || s[i] == '\0' then Ok([Token(Eof, i, "", 0)])
    else
      match ScanAt(s, i)
      case Skip => Lex(s, i + 1)
      case Emit(t, j) =>
        var rest :- Lex(s, j);
        Ok([t] + rest)
      case NoRule => Fail(InvalidToken(i))
  }

  function Prepend(toks: seq<Token>, r: Result<seq<Token>>): Result<seq<Token>> {
    match r
    case Ok(ts) => Ok(toks + ts)
    case Fail(e) => Fail(e)
  }

  /** One emitting step of the scan, seen from the tokens already produced. */
  lemma StepEmit(s: string, i: nat, toks: seq<Token>)
    requires i < |s| && s[i] != '\0' && ScanAt(s, i).Emit?
    ensures Prepend(toks, Lex(s, i)) == Prepend(toks + [ScanAt(s, i).tok], Lex(s, ScanAt(s, i).next))
  {
    match Lex(s, ScanAt(s, i).next)
    case Ok(rest) => assert toks + ([ScanAt(s, i).tok] + rest) == toks + [ScanAt(s, i).tok] + rest;
    case Fail(_) =>
  }

  /** Where a rule emits a token, the scan is that token followed by the scan
      from just past it. */
  lemma LexEmit(s: string, i: nat)
    requires i < |s| && s[i] != '\0' && ScanAt(s, i).Emit?
    ensures Lex(s, i) == Prepend([ScanAt(s, i).tok], Lex(s, ScanAt(s, i).next))
  {
  }

  /** `tokenize`: scans the text left to right, appending one token per
      matched rule and an EOF token at the end. */
  method Tokenize(s: string) returns (r: Result<seq<Token>>)
    ensures r == Lex(s, 0)
  {
    var toks: seq<Token> := [];
    var p := 0;
    match Lex(s, 0) {
      case Ok(ts) => assert [] + ts == ts;
      case Fail(_) =>
    }
    while p < |s| && s[p] != '\0'
      invariant p <= |s|
      invariant Lex(s, 0) == Prepend(toks, Lex(s, p))
      decreases |s| - p
    {
      if Lexer.IsSpace(s[p]) {
        p := p + 1;
      } else if Lexer.IsTwoCharOp(s, p) {
        StepEmit(s, p, toks);
        toks := toks + [Token(Reserved, p, s[p..p + 2], 0)];
        p := p + 2;
      } else if IsOpChar(s[p]) {
        StepEmit(s, p, toks);
        toks := toks + [Token(Reserved, p, [s[p]], 0)];
        p := p + 1;
      } else if Lexer.IsDigit(s[p]) {
        var start := p;
        var val;
        val, p := Lexer.StrToL(s, p);
        StepEmit(s, start, toks);
        toks := toks + [Token(Num, start, s[start..p], val)];
      } else {
        return Fail(InvalidToken(p));
      }
    }
    toks := toks + [Token(Eof, p, "", 0)];
    return Ok(toks);
  }

  // ---------------------------------------------------------------------
  // Properties of the token list

  /** Exactly one EOF token, the last one. */
  predicate EofLast(ts: seq<Token>) {
    |ts| > 0 && ts[|ts| - 1].kind == Eof && forall k :: 0 <= k < |ts| - 1 ==> ts[k].kind != Eof
  }

  /** Every token before the EOF is what the scanning rules emit at its
      offset, and the tokens appear in text order. */
  predicate Steps(s: string, from: nat, ts: seq<Token>) {
    && (forall k :: 0 <= k < |ts| - 1 ==>
          from <= ts[k].pos < |s| && ScanAt(s, ts[k].pos).Emit? && ScanAt(s, ts[k].pos).tok == ts[k])
    && (forall k :: 0 <= k < |ts| - 1 ==> ts[k].pos + |ts[k].text| <= ts[k + 1].pos)
  }

  /** A successful scan ends with exactly one EOF token. */
  lemma {:induction false} LexEofLast(s: string, i: nat)
    requires i <= |s|
    ensures Lex(s, i).Ok? ==> EofLast(Lex(s, i).value)
    decreases |s| - i
  {
    if i == |s| || s[i] == '\0' {
    } else {
      match ScanAt(s, i)
      case Skip => LexEofLast(s, i + 1);
      case Emit(t, j) =>
        LexEofLast(s, j);
        if Lex(s, i).Ok? {
          assert Lex(s, i).value == [t] + Lex(s, j).value;
        }
      case NoRule =>
    }
  }

  /** The first token of a successful scan from `i` sits at or after `i`. */
  lemma {:induction false} LexFirst(s: string, i: nat)
    requires i <= |s| && Lex(s, i).Ok?
    ensures |Lex(s, i).value| > 0 && i <= Lex(s, i).value[0].pos
    decreases |s| - i
  {
    if i == |s| || s[i] == '\0' {
    } else {
      match ScanAt(s, i)
      case Skip => LexFirst(s, i + 1);
      case Emit(t, j) =>
      case NoRule =>
    }
  }

  /** Every token of a successful scan is the rules' emission at its offset,
      in text order. */
  lemma {:induction false} LexSteps(s: string, i: nat)
    requires i <= |s|
    ensures Lex(s, i).Ok? ==> Steps(s, i, Lex(s, i).value)
    decreases |s| - i
  {
    if i == |s| || s[i] == '\0' {
    } else {
      match ScanAt(s, i)
      case Skip => LexSteps(s, i + 1);
      case Emit(t, j) =>
        LexSteps(s, j);
        if Lex(s, i).Ok? {
          var rest := Lex(s, j).value;
          var ts := Lex(s, i).value;
          assert ts == [t] + rest;
          LexFirst(s, j);
          forall k | 0 <= k < |ts| - 1
            ensures i <= ts[k].pos < |s| && ScanAt(s, ts[k].pos).Emit? && ScanAt(s, ts[k].pos).tok == ts[k]
          {
            if k > 0 {
              assert ts[k] == rest[k - 1];
            }
          }
          forall k | 0 <= k < |ts| - 1
            ensures ts[k].pos + |ts[k].text| <= ts[k + 1].pos
          {
            if k > 0 {
              assert ts[k] == rest[k - 1] && ts[k + 1] == rest[k];
            }
          }
        }
      case NoRule =>
    }
  }

  /** A failed scan names an offset inside the text at which no rule applies. */
  lemma {:induction false} LexFailure(s: string, i: nat)
    requires i <= |s|
    ensures Lex(s, i).Fail? ==>
              && Lex(s, i).error.InvalidToken?
              && i <= Lex(s, i).error.pos < |s|
              && ScanAt(s, Lex(s, i).error.pos).NoRule?
    decreases |s| - i
  {
    if i == |s| || s[i] == '\0' {
    } else {
      match ScanAt(s, i)
      case Skip => LexFailure(s, i + 1);
      case Emit(t, j) => LexFailure(s, j);
      case NoRule =>
    }
  }
}
