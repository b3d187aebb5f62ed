/** The lexer of tokenize.c: source text to a token list ending in one EOF
    token, and the token-cursor primitives the parser uses. */
module Tokenize {
  import opened Errors

  datatype TokenKind = Reserved | Ident | Num | Return | If | Else | While | For | Eof

  /** A token: its kind, the offset of its first character, the characters it
      covers (the `str`/`len` span) and, for a number, its value (0 for every
      other kind, as `calloc` leaves it). */
  datatype Token = Token(kind: TokenKind, pos: nat, text: string, val: int)

  predicate IsAlpha(c: char) {
    ('a' <= c <= 'z') || ('A' <= c <= 'Z') || c == '_'
  }

  predicate IsDigit(c: char) {
    '0' <= c <= '9'
  }

  predicate IsAlnum(c: char) {
    IsAlpha(c) || IsDigit(c)
  }

  /** `isspace` in the C locale: space, \t, \n, \v, \f, \r. */
  predicate IsSpace(c: char) {
    c == ' ' || ('\t' <= c <= '\r')
  }

  /** The one-character operators (the `strchr` set of `tokenize`). */
  predicate IsPunct(c: char) {
    c == '+' || c == '-' || c == '*' || c == '/' || c == '&' || c == '<' || c == '>'
    || c == '(' || c == ')' || c == '{' || c == '}' || c == ';' || c == '=' || c == ','
  }

  const Keywords: set<string> := {"return", "if", "else", "while", "for"}

  /** The character at offset `i`, or the terminating NUL past the end. */
  function CharAt(s: string, i: nat): char {
    if i < |s| then s[i] else '\0'
  }

  predicate StartsWith(s: string, i: nat, lit: string) {
    i + |lit| <= |s| && forall k :: 0 <= k < |lit| ==> s[i + k] == lit[k]
  }

  /** `==`, `!=`, `<=` or `>=` starts at `i`. */
  predicate IsTwoCharOp(s: string, i: nat) {
    i + 1 < |s| && s[i + 1] == '=' && (s[i] == '=' || s[i] == '!' || s[i] == '<' || s[i] == '>')
  }

  /** A keyword matches only when the character after it cannot continue an identifier. */
  predicate KeywordAt(s: string, i: nat, kw: string) {
    StartsWith(s, i, kw) && !IsAlnum(CharAt(s, i + |kw|))
  }

  function DigitValue(c: char): nat
    requires IsDigit(c)
  {
    c as int - '0' as int
  }

  predicate AllDigits(ds: string) {
    forall k :: 0 <= k < |ds| ==> IsDigit(ds[k])
  }

  /** The value of a string of decimal digits, most significant first. */
  function Decimal(ds: string): nat
    requires AllDigits(ds)
    decreases |ds|
  {
    if ds == [] then 0 else 10 * Decimal(ds[..|ds| - 1]) + DigitValue(ds[|ds| - 1])
  }

  /** The end of the maximal run of digits starting at `i` (what `strtol` reads). */
  function DigitsEnd(s: string, i: nat): (j: nat)
    requires i <= |s|
    ensures i <= j <= |s|
    ensures forall k :: i <= k < j ==> IsDigit(s[k])
    ensures j == |s| || !IsDigit(s[j])
    decreases |s| - i
  {
    if i < |s| && IsDigit(s[i]) then DigitsEnd(s, i + 1) else i
  }

  /** The end of the maximal run of identifier characters starting at `i`. */
  function AlnumEnd(s: string, i: nat): (j: nat)
    requires i <= |s|
    ensures i <= j <= |s|
    ensures forall k :: i <= k < j ==> IsAlnum(s[k])
    ensures j == |s| || !IsAlnum(s[j])
    decreases |s| - i
  {
    if i < |s| && IsAlnum(s[i]) then AlnumEnd(s, i + 1) else i
  }

  /** No NUL character among offsets `a` to `b` (exclusive). */
  predicate NoNul(s: string, a: nat, b: nat)
    requires a <= b <= |s|
  {
    forall p :: a <= p < b ==> s[p] != '\0'
  }

  /** What one iteration of the scanning loop does at offset `i`. */
  datatype Scan = Skip | Emit(tok: Token, next: nat) | NoRule

  /** A token `t` emitted at `i` covers exactly the characters up to `j`. */
  predicate Covers(s: string, i: nat, t: Token, j: nat) {
    t.pos == i && j == i + |t.text| && i < j <= |s| && s[i..j] == t.text && t.kind != Eof
  }

  /** No scanning rule applies to the character at `p`. */
  predicate NoRuleAt(s: string, p: nat)
    requires p < |s|
  {
    !IsSpace(s[p]) && !IsPunct(s[p]) && !IsAlnum(s[p]) && !IsTwoCharOp(s, p)
  }

  /** The rules of one loop iteration, tried in the source's order. */
  function ScanAt(s: string, i: nat): (r: Scan)
    requires i < |s|
    ensures r.Skip? <==> IsSpace(s[i])
    ensures r.Emit? ==> Covers(s, i, r.tok, r.next)
    ensures r.NoRule? <==> NoRuleAt(s, i)
  {
    if IsSpace(s[i]) then Skip
    else if IsTwoCharOp(s, i) then Emit(Token(Reserved, i, s[i..i + 2], 0), i + 2)
    else if IsPunct(s[i]) then Emit(Token(Reserved, i, [s[i]], 0), i + 1)
    else if KeywordAt(s, i, "return") then Emit(Token(Return, i, "return", 0), i + 6)
    else if KeywordAt(s, i, "if") then Emit(Token(If, i, "if", 0), i + 2)
    else if KeywordAt(s, i, "else") then Emit(Token(Else, i, "else", 0), i + 4)
    else if KeywordAt(s, i, "while") then Emit(Token(While, i, "while", 0), i + 5)
    else if KeywordAt(s, i, "for") then Emit(Token(For, i, "for", 0), i + 3)
    else if IsDigit(s[i]) then
      var j := DigitsEnd(s, i);
      Emit(Token(Num, i, s[i..j], Decimal(s[i..j])), j)
    else if IsAlpha(s[i]) then
      var j := AlnumEnd(s, i);
      IdentIsNoKeyword(s, i, j);
      Emit(Token(Ident, i, s[i..j], 0), j)
    else NoRule
  }

  /** A maximal identifier run is never one of the keywords, since a keyword
      followed by a non-identifier character is taken by the keyword rules. */
  lemma IdentIsNoKeyword(s: string, i: nat, j: nat)
    requires i < j <= |s| && (j == |s| || !IsAlnum(s[j]))
    requires !KeywordAt(s, i, "return") && !KeywordAt(s, i, "if") && !KeywordAt(s, i, "else")
    requires !KeywordAt(s, i, "while") && !KeywordAt(s, i, "for")
    ensures s[i..j] !in Keywords
  {
    var w := s[i..j];
    if w in Keywords {
      assert StartsWith(s, i, w) && CharAt(s, i + |w|) == CharAt(s, j);
    }
  }

  /** `==`, `!=`, `<=` and `>=` are taken whole, before the one-character rule. */
  lemma ScanTwoCharOp(s: string, i: nat)
    requires i < |s| && !IsSpace(s[i]) && IsTwoCharOp(s, i)
    ensures ScanAt(s, i).Emit? && ScanAt(s, i).tok.kind == Reserved && |ScanAt(s, i).tok.text| == 2
  {
  }

  /** Every other operator character is a reserved token of length 1. */
  lemma ScanPunct(s: string, i: nat)
    requires i < |s| && !IsSpace(s[i]) && !IsTwoCharOp(s, i) && IsPunct(s[i])
    ensures ScanAt(s, i) == Emit(Token(Reserved, i, [s[i]], 0), i + 1)
  {
  }

  /** Reserved tokens come only from the two operator rules. */
  lemma ScanReservedOnlyOps(s: string, i: nat)
    requires i < |s| && ScanAt(s, i).Emit? && ScanAt(s, i).tok.kind == Reserved
    ensures IsTwoCharOp(s, i) || (|ScanAt(s, i).tok.text| == 1 && IsPunct(s[i]))
  {
  }

  /** A keyword token is followed by a character that cannot continue an identifier. */
  lemma ScanKeyword(s: string, i: nat)
    requires i < |s| && ScanAt(s, i).Emit? && ScanAt(s, i).tok.kind in {Return, If, Else, While, For}
    ensures ScanAt(s, i).tok.text in Keywords && !IsAlnum(CharAt(s, ScanAt(s, i).next))
  {
  }

  /** A number token is the maximal run of digits, valued in decimal. */
  lemma ScanNumber(s: string, i: nat)
    requires i < |s| && ScanAt(s, i).Emit? && ScanAt(s, i).tok.kind == Num
    ensures var t := ScanAt(s, i).tok;
            AllDigits(t.text) && !IsDigit(CharAt(s, ScanAt(s, i).next)) && t.val == Decimal(t.text)
  {
  }

  /** An identifier token is a maximal run of identifier characters starting
      with a letter or `_`, and never a keyword. */
  lemma ScanIdent(s: string, i: nat)
    requires i < |s| && ScanAt(s, i).Emit? && ScanAt(s, i).tok.kind == Ident
    ensures var r := ScanAt(s, i);
            IsAlpha(s[i]) && (forall k :: i <= k < r.next ==> IsAlnum(s[k]))
            && !IsAlnum(CharAt(s, r.next)) && r.tok.text !in Keywords
  {
  }

  /** The characters of an emitted token are never the terminating NUL. */
  lemma ScanNoNul(s: string, i: nat)
    requires i < |s| && ScanAt(s, i).Emit?
    ensures NoNul(s, i, ScanAt(s, i).next)
  {
    var r := ScanAt(s, i);
    forall p | i <= p < r.next
      ensures s[p] != '\0'
    {
      assert s[p] == r.tok.text[p - i];
      if IsTwoCharOp(s, i) {
      } else if IsPunct(s[i]) {
      } else if r.tok.kind == Num {
        ScanNumber(s, i);
      } else if r.tok.kind == Ident {
        ScanIdent(s, i);
      } else {
        ScanKeyword(s, i);
      }
    }
  }

  /** The whole scan from offset `i`: the `while (*p)` loop of `tokenize`,
      stopping at the end of the text or at a NUL character. */
  function Lex(s: string, i: nat): Result<seq<Token>>
    requires i <= |s|
    decreases |s| - i
  {
    if i == |s| || s[i] == '\0' then Ok([Token(Eof, i, "", 0)])
    else
      match ScanAt(s, i)
      case Skip => Lex(s, i + 1)
      case Emit(t, j) =>
        var rest :- Lex(s, j);
        Ok([t] + rest)
      case NoRule => Fail(InvalidToken(i))
  }

  function Prepend(toks: seq<Token>, r: Result<seq<Token>>): Result<seq<Token>> {
    match r
    case Ok(ts) => Ok(toks + ts)
    case Fail(e) => Fail(e)
  }

  /** One emitting step of the scan, seen from a prefix `toks` already produced. */
  lemma StepEmit(s: string, i: nat, toks: seq<Token>)
    requires i < |s| && s[i] != '\0' && ScanAt(s, i).Emit?
    ensures Prepend(toks, Lex(s, i)) == Prepend(toks + [ScanAt(s, i).tok], Lex(s, ScanAt(s, i).next))
  {
    match Lex(s, ScanAt(s, i).next)
    case Ok(rest) => assert toks + ([ScanAt(s, i).tok] + rest) == toks + [ScanAt(s, i).tok] + rest;
    case Fail(_) =>
  }

  /** `strtol(p, &p, 10)` at a digit: reads the maximal run of decimal digits,
      returning its value and the offset just past it. */
  method StrToL(s: string, i: nat) returns (val: int, end: nat)
    requires i < |s| && IsDigit(s[i])
    ensures end == DigitsEnd(s, i)
    ensures val == Decimal(s[i..end])
  {
    end, val := i, 0;
    while end < |s| && IsDigit(s[end])
      invariant i <= end <= |s|
      invariant AllDigits(s[i..end]) && val == Decimal(s[i..end])
      invariant DigitsEnd(s, end) == DigitsEnd(s, i)
      decreases |s| - end
    {
      assert s[i..end + 1][..end - i] == s[i..end];
      val := 10 * val + DigitValue(s[end]);
      end := end + 1;
    }
  }

  /** The `tokenize` loop: scans the text left to right, appending one token per
      matched rule and an EOF token at the end. */
  method Tokenize(s: string) returns (r: Result<seq<Token>>)
    ensures r == Lex(s, 0)
  {
    var toks: seq<Token> := [];
    var i := 0;
    match Lex(s, 0) {
      case Ok(ts) => assert [] + ts == ts;
      case Fail(_) =>
    }
    while i < |s| && s[i] != '\0'
      invariant i <= |s|
      invariant Lex(s, 0) == Prepend(toks, Lex(s, i))
      decreases |s| - i
    {
      if IsSpace(s[i]) {
        i := i + 1;
      } else if IsTwoCharOp(s, i) {
        StepEmit(s, i, toks);
        toks := toks + [Token(Reserved, i, s[i..i + 2], 0)];
        i := i + 2;
      } else if IsPunct(s[i]) {
        StepEmit(s, i, toks);
        toks := toks + [Token(Reserved, i, [s[i]], 0)];
        i := i + 1;
      } else if KeywordAt(s, i, "return") {
        StepEmit(s, i, toks);
        toks := toks + [Token(Return, i, "return", 0)];
        i := i + 6;
      } else if KeywordAt(s, i, "if") {
        StepEmit(s, i, toks);
        toks := toks + [Token(If, i, "if", 0)];
        i := i + 2;
      } else if KeywordAt(s, i, "else") {
        StepEmit(s, i, toks);
        toks := toks + [Token(Else, i, "else", 0)];
        i := i + 4;
      } else if KeywordAt(s, i, "while") {
        StepEmit(s, i, toks);
        toks := toks + [Token(While, i, "while", 0)];
        i := i + 5;
      } else if KeywordAt(s, i, "for") {
        StepEmit(s, i, toks);
        toks := toks + [Token(For, i, "for", 0)];
        i := i + 3;
      } else if IsDigit(s[i]) {
        var start := i;
        var val;
        val, i := StrToL(s, i);
        StepEmit(s, start, toks);
        toks := toks + [Token(Num, start, s[start..i], val)];
      } else if IsAlpha(s[i]) {
        var start := i;
        while i < |s| && IsAlnum(s[i])
          invariant start <= i <= |s|
          invariant AlnumEnd(s, i) == AlnumEnd(s, start)
          decreases |s| - i
        {
          i := i + 1;
        }
        StepEmit(s, start, toks);
        toks := toks + [Token(Ident, start, s[start..i], 0)];
      } else {
        return Fail(InvalidToken(i));
      }
    }
    toks := toks + [Token(Eof, i, "", 0)];
    return Ok(toks);
  }

  // ---------------------------------------------------------------------
  // Properties of the token list

  /** Offsets `a` to `b` of `s` hold only whitespace. */
  predicate AllSpace(s: string, a: nat, b: nat)
    requires a <= b <= |s|
  {
    forall p :: a <= p < b ==> IsSpace(s[p])
  }

  function End(t: Token): nat {
    t.pos + |t.text|
  }

  /** A scan result ends with exactly one EOF token, sitting at the end of
      the text or on a NUL. */
  predicate EofLast(s: string, ts: seq<Token>) {
    && |ts| > 0
    && ts[|ts| - 1].kind == Eof && ts[|ts| - 1].text == []
    && (forall k :: 0 <= k < |ts| - 1 ==> ts[k].kind != Eof)
    && (var eof := ts[|ts| - 1].pos; eof <= |s| && (eof == |s| || s[eof] == '\0'))
  }

  /** Every token lies inside the text at or after `from`, and its text is the
      slice of the source it was read from. */
  predicate Spans(s: string, from: nat, ts: seq<Token>) {
    forall k :: 0 <= k < |ts| ==>
      (from <= ts[k].pos && End(ts[k]) <= |s| && s[ts[k].pos..End(ts[k])] == ts[k].text)
  }

  /** Spans come in text order and do not overlap: each token ends at or
      before the start of every later one. */
  predicate Ordered(ts: seq<Token>) {
    forall a, b :: 0 <= a < b < |ts| ==> End(ts[a]) <= ts[b].pos
  }

  /** Every token before the EOF is what the scanning rules emit at its offset. */
  predicate Steps(s: string, ts: seq<Token>) {
    forall k :: 0 <= k < |ts| - 1 ==>
      (ts[k].pos < |s| && ScanAt(s, ts[k].pos) == Emit(ts[k], End(ts[k])))
  }

  /** Only whitespace precedes the first token. */
  predicate LeadingSpace(s: string, from: nat, ts: seq<Token>) {
    |ts| > 0 && from <= ts[0].pos <= |s| && AllSpace(s, from, ts[0].pos)
  }

  /** Token `u` follows token `t` with only whitespace between them. */
  predicate Adjacent(s: string, t: Token, u: Token) {
    End(t) <= u.pos <= |s| && AllSpace(s, End(t), u.pos)
  }

  /** Tokens are in text order with only whitespace between consecutive ones. */
  predicate Gaps(s: string, ts: seq<Token>) {
    forall k :: 0 <= k < |ts| - 1 ==> Adjacent(s, ts[k], ts[k + 1])
  }

  /** A successful scan ends with exactly one EOF token. */
  lemma {:induction false} LexEofLast(s: string, i: nat)
    requires i <= |s|
    ensures Lex(s, i).Ok? ==> EofLast(s, Lex(s, i).value)
    decreases |s| - i
  {
    if i == |s| || s[i] == '\0' {
    } else {
      match ScanAt(s, i)
      case Skip => LexEofLast(s, i + 1);
      case Emit(t, j) =>
        LexEofLast(s, j);
        if Lex(s, i).Ok? {
          var rest := Lex(s, j).value;
          assert Lex(s, i).value == [t] + rest;
        }
      case NoRule =>
    }
  }

  /** A successful scan's tokens are slices of the text from `i` on. */
  lemma {:induction false} LexSpans(s: string, i: nat)
    requires i <= |s|
    ensures Lex(s, i).Ok? ==> Spans(s, i, Lex(s, i).value)
    ensures Lex(s, i).Ok? ==> Ordered(Lex(s, i).value)
    decreases |s| - i, 1
  {
    LexOrdered(s, i);
    if i == |s| || s[i] == '\0' {
    } else {
      match ScanAt(s, i)
      case Skip => LexSpans(s, i + 1);
      case Emit(t, j) =>
        LexSpans(s, j);
        if Lex(s, i).Ok? {
          var rest := Lex(s, j).value;
          var ts := Lex(s, i).value;
          assert ts == [t] + rest;
          forall k | 0 <= k < |ts|
            ensures i <= ts[k].pos && End(ts[k]) <= |s| && s[ts[k].pos..End(ts[k])] == ts[k].text
          {
            if k > 0 {
              assert ts[k] == rest[k - 1];
            }
          }
        }
      case NoRule =>
    }
  }

  /** The emitted spans are in text order and do not overlap. */
  lemma {:induction false} LexOrdered(s: string, i: nat)
    requires i <= |s|
    ensures Lex(s, i).Ok? ==> Ordered(Lex(s, i).value)
    decreases |s| - i, 0
  {
    if i == |s| || s[i] == '\0' {
    } else {
      match ScanAt(s, i)
      case Skip => LexOrdered(s, i + 1);
      case Emit(t, j) =>
        LexOrdered(s, j);
        if Lex(s, i).Ok? {
          LexSpans(s, j);
          var rest := Lex(s, j).value;
          var ts := Lex(s, i).value;
          assert ts == [t] + rest;
          forall a, b | 0 <= a < b < |ts|
            ensures End(ts[a]) <= ts[b].pos
          {
            assert ts[b] == rest[b - 1];
            if a > 0 {
              assert ts[a] == rest[a - 1];
            }
          }
        }
      case NoRule =>
    }
  }

  /** Every non-EOF token of a successful scan is the rule's emission at its offset. */
  lemma {:induction false} LexSteps(s: string, i: nat)
    requires i <= |s|
    ensures Lex(s, i).Ok? ==> Steps(s, Lex(s, i).value)
    decreases |s| - i
  {
    if i == |s| || s[i] == '\0' {
    } else {
      match ScanAt(s, i)
      case Skip => LexSteps(s, i + 1);
      case Emit(t, j) =>
        LexSteps(s, j);
        if Lex(s, i).Ok? {
          var rest := Lex(s, j).value;
          var ts := Lex(s, i).value;
          assert ts == [t] + rest;
          forall k | 0 <= k < |ts| - 1
            ensures ts[k].pos < |s| && ScanAt(s, ts[k].pos) == Emit(ts[k], End(ts[k]))
          {
            if k > 0 {
              assert ts[k] == rest[k - 1];
            }
          }
        }
      case NoRule =>
    }
  }

  /** A successful scan from `i` starts with whitespace only. */
  lemma {:induction false} LexLeadingSpace(s: string, i: nat)
    requires i <= |s|
    ensures Lex(s, i).Ok? ==> LeadingSpace(s, i, Lex(s, i).value)
    decreases |s| - i
  {
    if i == |s| || s[i] == '\0' {
    } else {
      match ScanAt(s, i)
      case Skip =>
        LexLeadingSpace(s, i + 1);
        if Lex(s, i).Ok? {
          assert Lex(s, i) == Lex(s, i + 1);
          assert AllSpace(s, i + 1, Lex(s, i).value[0].pos);
        }
      case Emit(t, j) =>
        if Lex(s, i).Ok? {
          assert Lex(s, i).value[0] == t;
        }
      case NoRule =>
    }
  }

  /** Between consecutive tokens of a successful scan there is only whitespace. */
  lemma {:induction false} LexGaps(s: string, i: nat)
    requires i <= |s|
    ensures Lex(s, i).Ok? ==> Gaps(s, Lex(s, i).value)
    decreases |s| - i
  {
    if i == |s| || s[i] == '\0' {
    } else {
      match ScanAt(s, i)
      case Skip =>
        LexGaps(s, i + 1);
      case Emit(t, j) =>
        LexGaps(s, j);
        LexLeadingSpace(s, j);
        if Lex(s, i).Ok? {
          var rest := Lex(s, j).value;
          var ts := Lex(s, i).value;
          assert ts == [t] + rest;
          forall k | 0 <= k < |ts| - 1
            ensures Adjacent(s, ts[k], ts[k + 1])
          {
            if k > 0 {
              assert ts[k] == rest[k - 1] && ts[k + 1] == rest[k];
            }
          }
        }
      case NoRule =>
    }
  }

  /** A failed scan names the first offset at which no rule applies: no NUL
      ends the text before it, and the character there is none of
      whitespace, operator, digit or identifier start. */
  lemma {:induction false} LexFailure(s: string, i: nat)
    requires i <= |s|
    ensures Lex(s, i).Fail? ==>
              && Lex(s, i).error.InvalidToken?
              && i <= Lex(s, i).error.pos < |s|
              && NoRuleAt(s, Lex(s, i).error.pos)
              && NoNul(s, i, Lex(s, i).error.pos + 1)
    decreases |s| - i
  {
    if i == |s| || s[i] == '\0' {
    } else {
      match ScanAt(s, i)
      case Skip => LexFailure(s, i + 1);
      case Emit(t, j) =>
        LexFailure(s, j);
        ScanNoNul(s, i);
      case NoRule =>
    }
  }

  /** Text made only of whitespace yields the EOF token alone. */
  lemma {:induction false} BlankYieldsEof(s: string, i: nat)
    requires i <= |s| && AllSpace(s, i, |s|)
    ensures Lex(s, i) == Ok([Token(Eof, |s|, "", 0)])
    decreases |s| - i
  {
    if i < |s| {
      assert IsSpace(s[i]);
      BlankYieldsEof(s, i + 1);
    }
  }

  /** Where a rule emits a token, the scan is that token followed by the scan
      from just past it. */
  lemma LexEmit(s: string, i: nat)
    requires i < |s| && s[i] != '\0' && ScanAt(s, i).Emit?
    ensures Lex(s, i) == Prepend([ScanAt(s, i).tok], Lex(s, ScanAt(s, i).next))
  {
  }

  /** `iffy` is one identifier, not the keyword `if` followed by `fy`. */
  lemma IffyIsIdentifier()
    ensures Lex("iffy", 0) == Ok([Token(Ident, 0, "iffy", 0), Token(Eof, 4, "", 0)])
  {
    var s := "iffy";
    assert !KeywordAt(s, 0, "if") by { assert CharAt(s, 2) == 'f'; }
    assert !StartsWith(s, 0, "else") by { assert s[0 + 0] != "else"[0]; }
    assert AlnumEnd(s, 4) == 4;
    assert AlnumEnd(s, 0) == 4;
    assert ScanAt(s, 0) == Emit(Token(Ident, 0, "iffy", 0), 4);
    assert Lex(s, 4) == Ok([Token(Eof, 4, "", 0)]);
    LexEmit(s, 0);
    assert [Token(Ident, 0, "iffy", 0)] + [Token(Eof, 4, "", 0)] == [Token(Ident, 0, "iffy", 0), Token(Eof, 4, "", 0)];
  }

  /** `a<=b` is three tokens; `<=` is never split into `<` and `=`. */
  lemma LessEqualIsOneToken()
    ensures Lex("a<=b", 0) ==
      Ok([Token(Ident, 0, "a", 0), Token(Reserved, 1, "<=", 0), Token(Ident, 3, "b", 0), Token(Eof, 4, "", 0)])
  {
    var s := "a<=b";
    assert AlnumEnd(s, 1) == 1;
    assert ScanAt(s, 0) == Emit(Token(Ident, 0, "a", 0), 1) by {
      assert !StartsWith(s, 0, "if") by { assert s[0 + 0] != "if"[0]; }
      assert !StartsWith(s, 0, "else") by { assert s[0 + 0] != "else"[0]; }
      assert !StartsWith(s, 0, "while") by { assert s[0 + 0] != "while"[0]; }
      assert !StartsWith(s, 0, "for") by { assert s[0 + 0] != "for"[0]; }
    }
    assert ScanAt(s, 1) == Emit(Token(Reserved, 1, "<=", 0), 3);
    assert AlnumEnd(s, 4) == 4;
    assert ScanAt(s, 3) == Emit(Token(Ident, 3, "b", 0), 4) by {
      assert !StartsWith(s, 3, "return") && !StartsWith(s, 3, "if") && !StartsWith(s, 3, "else");
      assert !StartsWith(s, 3, "while") && !StartsWith(s, 3, "for");
    }
    var a, le, b, eof := Token(Ident, 0, "a", 0), Token(Reserved, 1, "<=", 0), Token(Ident, 3, "b", 0), Token(Eof, 4, "", 0);
    assert Lex(s, 4) == Ok([eof]);
    LexEmit(s, 3);
    assert [b] + [eof] == [b, eof];
    assert Prepend([b], Ok([eof])) == Ok([b, eof]);
    assert Lex(s, 3) == Ok([b, eof]);
    LexEmit(s, 1);
    assert [le] + [b, eof] == [le, b, eof];
    assert Prepend([le], Ok([b, eof])) == Ok([le, b, eof]);
    assert Lex(s, 1) == Ok([le, b, eof]);
    LexEmit(s, 0);
    assert [a] + [le, b, eof] == [a, le, b, eof];
    assert Prepend([a], Ok([le, b, eof])) == Ok([a, le, b, eof]);
  }

  // ---------------------------------------------------------------------
  // The token cursor. The global `token` points into the singly linked token
  // list, so the cursor is modelled as the list of tokens from it onwards.

  /** The test `consume` applies: the current token is not an identifier or a
      number and its text is `op`. */
  predicate Consumes(ts: seq<Token>, op: string) {
    |ts| > 0 && ts[0].kind != Ident && ts[0].kind != Num && ts[0].text == op
  }

  /** The test `expect` applies: the current token is a reserved token `op`. */
  predicate IsOp(ts: seq<Token>, op: string) {
    |ts| > 0 && ts[0].kind == Reserved && ts[0].text == op
  }

  /** The offset a diagnostic points at: the current token's. */
  function Here(ts: seq<Token>): nat {
    if |ts| > 0 then ts[0].pos else 0
  }

  /** `expect`: the cursor moves one token past a reserved `op`, or the
      parse fails at the current token. */
  function ExpectOp(ts: seq<Token>, op: string): (r: Result<seq<Token>>)
    ensures r.Ok? <==> IsOp(ts, op)
    ensures r.Ok? ==> r.value == ts[1..] && |r.value| < |ts|
    ensures r.Fail? ==> r.error == ExpectedOp(Here(ts), op)
  {
    if IsOp(ts, op) then Ok(ts[1..]) else Fail(ExpectedOp(Here(ts), op))
  }

  /** `expect_ident`: the text of the current identifier and the cursor one
      token on, or a failure at the current token. */
  function ExpectIdent(ts: seq<Token>): (r: Result<(string, seq<Token>)>)
    ensures r.Ok? <==> |ts| > 0 && ts[0].kind == Ident
    ensures r.Ok? ==> r.value == (ts[0].text, ts[1..]) && |r.value.1| < |ts|
    ensures r.Fail? ==> r.error == ExpectedIdent(Here(ts))
  {
    if |ts| > 0 && ts[0].kind == Ident then Ok((ts[0].text, ts[1..])) else Fail(ExpectedIdent(Here(ts)))
  }

  /** `expect_number`: the value of the current number token and the cursor
      one token on, or a failure at the current token. */
  function ExpectNumber(ts: seq<Token>): (r: Result<(int, seq<Token>)>)
    ensures r.Ok? <==> |ts| > 0 && ts[0].kind == Num
    ensures r.Ok? ==> r.value == (ts[0].val, ts[1..]) && |r.value.1| < |ts|
    ensures r.Fail? ==> r.error == ExpectedNumber(Here(ts))
  {
    if |ts| > 0 && ts[0].kind == Num then Ok((ts[0].val, ts[1..])) else Fail(ExpectedNumber(Here(ts)))
  }

  /** `at_eof`; an exhausted list counts as the end too. */
  predicate AtEof(ts: seq<Token>) {
    |ts| == 0 || ts[0].kind == Eof
  }

  /** The global token cursor and the primitives that move it. */
  class Cursor {
    var rest: seq<Token>

    constructor (toks: seq<Token>)
      ensures rest == toks
    {
      rest := toks;
    }

    method Consume(op: string) returns (ok: bool)
      modifies this
      ensures ok == Consumes(old(rest), op)
      ensures rest == if ok then old(rest)[1..] else old(rest)
    {
      ok := Consumes(rest, op);
      if ok {
        rest := rest[1..];
      }
    }

    method ConsumeIdent() returns (t: Option<Token>)
      modifies this
      ensures t.Some? <==> |old(rest)| > 0 && old(rest)[0].kind == Ident
      ensures t.Some? ==> t.value == old(rest)[0] && rest == old(rest)[1..]
      ensures t.None? ==> rest == old(rest)
    {
      if |rest| > 0 && rest[0].kind == Ident {
        t := Some(rest[0]);
        rest := rest[1..];
      } else {
        t := None;
      }
    }

    method Expect(op: string) returns (r: Result<()>)
      modifies this
      ensures r.Ok? <==> ExpectOp(old(rest), op).Ok?
      ensures r.Ok? ==> rest == old(rest)[1..]
      ensures r.Fail? ==> r.error == ExpectedOp(Here(old(rest)), op)
    {
      if !IsOp(rest, op) {
        return Fail(ExpectedOp(Here(rest), op));
      }
      rest := rest[1..];
      return Ok(());
    }

    method ExpectIdentifier() returns (r: Result<string>)
      modifies this
      ensures r.Ok? <==> ExpectIdent(old(rest)).Ok?
      ensures r.Ok? ==> r.value == old(rest)[0].text && rest == old(rest)[1..]
      ensures r.Fail? ==> r.error == ExpectedIdent(Here(old(rest)))
    {
      if |rest| == 0 || rest[0].kind != Ident {
        return Fail(ExpectedIdent(Here(rest)));
      }
      r := Ok(rest[0].text);
      rest := rest[1..];
    }

    method ExpectNum() returns (r: Result<int>)
      modifies this
      ensures r.Ok? <==> ExpectNumber(old(rest)).Ok?
      ensures r.Ok? ==> r.value == old(rest)[0].val && rest == old(rest)[1..]
      ensures r.Fail? ==> r.error == ExpectedNumber(Here(old(rest)))
    {
      if |rest| == 0 || rest[0].kind != Num {
        return Fail(ExpectedNumber(Here(rest)));
      }
      r := Ok(rest[0].val);
      rest := rest[1..];
    }

    method AtEnd() returns (b: bool)
      ensures b == AtEof(rest)
    {
      b := |rest| == 0 || rest[0].kind == Eof;
    }
  }
}
