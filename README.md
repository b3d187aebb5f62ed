# ycc in Dafny

A model of ycc, a small compiler from a subset of C to x86-64 assembly
in Intel syntax. It covers the five parts of the compiler:

- the lexer and its token cursor (`tokenize.c`);
- the recursive-descent parser with its symbol tables (`parse.c`);
- the type resolver (`type.c`);
- the stack-machine code generator (`codegen.c`);
- the early arithmetic-only compiler (`ycc.c`), which has its own lexer,
  parser and `gen`.

The output assembly is a sequence of an instruction datatype, not text.
Every imperative routine of the source except type.c's `visit` is a Dafny
method or class and is proved equal to a pure specification function;
`visit`, which rewrites nodes in place, is the function `Typing.Visit` (see
Left out). The properties are proved about those functions:

- Lexer: whitespace never produces a token; `==`, `!=`, `<=` and `>=` are
  single tokens; keywords need a non-alphanumeric character after them;
  numbers are maximal digit runs with their decimal value; one EOF token
  ends the list; an invalid character fails at its offset.
- Parser: printing a tree and parsing it back gives the tree (round trip);
  precedence and associativity; `>` and `>=` swap their operands; unary
  `-x` becomes `0 - x` and `a[i]` becomes `*(a + i)`; declarator types;
  locals shadow globals, and the newest variable of a name wins.
- Type resolver: the typing rules of every node kind; `sizeof` is rewritten
  into a number; the walk is post-order; typing twice changes nothing.
- Code generator:
  - every expression's code pushes exactly one value and, with `for`
    corrected as in Findings, every statement's code leaves the stack as it
    found it;
  - the label counter only grows, so the numbered labels are never defined
    twice and every jump lands on a defined label. Each function's return
    label `.Lreturn<name>` is unique only when no two functions share a
    name, which parse.c does not check; the whole-program label lemmas
    take that as a hypothesis;
  - running an expression's code on a small machine (registers, an operand
    stack, a memory map) pushes the value the expression has in C.
- Arithmetic compiler: printing a tree and parsing it back gives the tree;
  `>` and `>=` swap their operands, unary `-x` becomes `0 - x`, `-` is
  left-associative and `*` binds tighter than `+`, for all operands.
  `5+6*7` compiles to code that returns 47, `- -10` to code that returns 10
  and `1>0` to code that returns 1. In general, the body of `main` returns
  the value of the parsed expression.

Modules, one per file: `Errors`, `Types`, `Ast`, `Asm`, `Machine`,
`Tokenize`, `ParseSpec`, `Parser`, `ParseProps`, `ParseFacts`, `Typing`,
`TypingFacts`, `CodegenSpec`, `Codegen`, `CodegenEffect`, `CodegenLabels`,
`CodegenCorrect`, `CodegenFinding`, `YccLex`, `YccParse`, `YccProps`,
`YccGen`, `YccExamples`.

How the source's data is represented:

- The global token cursor is the remaining suffix of the token list.
- The `locals`/`globals` lists are sequences whose front is the newest
  entry.
- Errors reported through `error`/`error_at` become a `Fail` result that
  carries the offset and the kind of error.

## Model

| member | source | states |
|---|---|---|
| Tokenize.DigitsEnd | tokenize.c:151-156 | the end of the run of digits: every character before it is a digit and the one at it is not |
| Tokenize.AlnumEnd | tokenize.c:160-166 | the end of an identifier: every character before it is alphanumeric or `_`, the one at it is not |
| Tokenize.ScanAt | tokenize.c:94-168 | one iteration of the scanning loop: it skips exactly the whitespace, an emitted token covers exactly the characters it starts at, and no rule applies exactly when the character is none of the recognised ones |
| Tokenize.ScanTwoCharOp | tokenize.c:102-107 | `==`, `!=`, `<=` and `>=` lex as one reserved token of length 2 |
| Tokenize.ScanPunct | tokenize.c:110-113 | an operator character that does not start a comparison yields a reserved token of length 1 |
| Tokenize.ScanReservedOnlyOps | tokenize.c:101-113 | a reserved token is always a comparison or a single operator character |
| Tokenize.ScanKeyword | tokenize.c:115-148 | a keyword token is one of the five keywords and is not followed by an alphanumeric character |
| Tokenize.IdentIsNoKeyword | tokenize.c:159-166 | an identifier read where no keyword rule fires is not itself one of the keywords |
| Tokenize.ScanNumber | tokenize.c:150-157 | a number token is the maximal run of digits and its value is their decimal value |
| Tokenize.ScanIdent | tokenize.c:159-166 | an identifier token is the maximal run of alphanumeric characters from a letter |
| Tokenize.ScanNoNul | tokenize.c:94 | no token extends over a NUL character |
| Tokenize.StrToL | tokenize.c:154-155 | reading a number stops at the end of the digit run and yields the decimal value |
| Tokenize.Tokenize | tokenize.c:88-173 | the pointer loop that appends tokens computes exactly the recursive scan `Lex` |
| Tokenize.Lex | tokenize.c:88-173 | definition: the scan as a recursion over the offset, one rule at a time; its properties are the `Lex…` lemmas |
| Tokenize.StepEmit | tokenize.c:73-80 | appending one token to the list built so far is one step of the scan |
| Tokenize.LexEmit | tokenize.c:73-80 | where a rule emits a token, the scan is that token followed by the scan after it |
| Tokenize.LexEofLast | tokenize.c:171 | a successful scan ends with exactly one EOF token |
| Tokenize.LexSpans | tokenize.c:94-99 | every token's span lies inside the input and spells the token's text; the spans appear in increasing order and do not overlap |
| Tokenize.LexOrdered | tokenize.c:94-99 | each token ends at or before the start of every later token |
| Tokenize.LexSteps | tokenize.c:94-168 | each token is what the rules emit at its offset |
| Tokenize.LexLeadingSpace | tokenize.c:96-99 | only whitespace lies between the start and the first token |
| Tokenize.LexGaps | tokenize.c:96-99 | only whitespace lies between one token and the next |
| Tokenize.LexFailure | tokenize.c:168 | a failed scan names an offset inside the input at which no rule applies |
| Tokenize.BlankYieldsEof | tokenize.c:94-99 | an input of only whitespace lexes to a single EOF token |
| Tokenize.IffyIsIdentifier | tokenize.c:123 | `iffy` lexes as one identifier, not as `if` followed by `fy` |
| Tokenize.LessEqualIsOneToken | tokenize.c:102-107 | `a<=b` lexes as three tokens with `<=` in the middle |
| Tokenize.ExpectOp | tokenize.c:49-54 | succeeds exactly on a reserved token spelled `op` and then leaves the tokens after it; otherwise "expected" at the current token's offset |
| Tokenize.ExpectIdent | tokenize.c:56-62 | succeeds exactly on an identifier token, returning its text and the tokens after it; otherwise "expected an identifier" at its offset |
| Tokenize.ExpectNumber | tokenize.c:64-69 | succeeds exactly on a number token, returning its value and the tokens after it; otherwise "expected a number" at its offset |
| Tokenize.Cursor.Consume | tokenize.c:34-40 | it succeeds exactly on a matching token that is neither an identifier nor a number; then the cursor moves one token, otherwise it stays |
| Tokenize.Cursor.ConsumeIdent | tokenize.c:42-47 | it returns the token and moves one token exactly when an identifier is next; otherwise the cursor stays |
| Tokenize.Cursor.Expect | tokenize.c:49-54 | it succeeds exactly on a matching reserved token and moves one token; otherwise it fails with "expected" at the token's offset |
| Tokenize.Cursor.ExpectIdentifier | tokenize.c:56-62 | it returns the identifier's text and moves one token, or fails at the token's offset |
| Tokenize.Cursor.ExpectNum | tokenize.c:64-69 | it returns the number's value and moves one token, or fails at the token's offset |
| Tokenize.Cursor.AtEnd | tokenize.c:71 | true exactly when the current token is the EOF token |
| Types.SizeOfPointers | type.c:24-28 | `int` has size 4; a pointer to any type, at any depth of `pointer_to`, has size 8 |
| Types.SizeOfArray | type.c:29-30 | an array's size is its element size times the product of its dimensions |
| Types.ArrayOfDimsShape | type.c:16-22 | nesting `array_of` gives an array of the first dimension, and the result has a base type exactly when there is a dimension or the element has one |
| Types.IntTwoByThree | parse.c:126-132 | `int x[2][3]` has the type array 2 of array 3 of int, of size 24 |
| ParseSpec.Lookup | parse.c:6-23 | the variable returned is in the list and has the name; none is returned only when no variable has the name |
| ParseSpec.Stars | parse.c:122 | reading `*` tokens never grows the remaining input |
| ParseSpec.BaseType | parse.c:119-124 | a successful `basetype` consumes at least the `int` |
| ParseSpec.TypeSuffix | parse.c:126-132 | `read_type_suffix` consumes nothing or some tokens |
| ParseSpec.Expression | parse.c:293 | a successful parse consumes at least one token (as do `Equality`, `Relational`, `AddExpr`, `MulExpr`, `UnaryExpr`, `PostfixExpr`, `Primary`, whose rows follow) |
| ParseSpec.AssignExpr | parse.c:298-306 | as above, for `assign` |
| ParseSpec.Equality | parse.c:311-323 | as above, for `equality` |
| ParseSpec.EqualityTail | parse.c:314-322 | the loop of `equality` never grows the remaining input |
| ParseSpec.Relational | parse.c:328-344 | as above, for `relational` |
| ParseSpec.RelationalTail | parse.c:331-343 | the loop of `relational` never grows the remaining input |
| ParseSpec.AddExpr | parse.c:349-361 | as above, for `add` |
| ParseSpec.AddTail | parse.c:352-360 | the loop of `add` never grows the remaining input |
| ParseSpec.MulExpr | parse.c:366-378 | as above, for `mul` |
| ParseSpec.MulTail | parse.c:369-377 | the loop of `mul` never grows the remaining input |
| ParseSpec.UnaryExpr | parse.c:385-407 | as above, for `unary` |
| ParseSpec.PostfixExpr | parse.c:412-421 | as above, for `postfix` |
| ParseSpec.PostfixTail | parse.c:415-419 | the subscript loop never grows the remaining input |
| ParseSpec.Primary | parse.c:428-469 | as above, for `primary` |
| ParseSpec.CallArgs | parse.c:448-458 | a non-empty argument list yields at least one argument |
| ParseSpec.ArgsTail | parse.c:452-456 | the comma loop only adds arguments |
| ParseSpec.ForClause | parse.c:254-265 | a clause of a `for` header consumes at least its closing token |
| ParseSpec.Statement | parse.c:228-288 | a statement consumes at least one token and never changes the globals |
| ParseSpec.Statements | parse.c:273-276 | a block's statement loop consumes its closing brace and never changes the globals |
| ParseSpec.Declaration | parse.c:202-217 | a declaration consumes tokens and never changes the globals |
| ParseSpec.FuncParam | parse.c:134-142 | a parameter consumes tokens and never changes the globals |
| ParseSpec.FuncParams | parse.c:144-157 | the parameter list consumes its closing parenthesis and never changes the globals |
| ParseSpec.ParamsTail | parse.c:150-154 | the parameter loop never changes the globals |
| ParseSpec.FunctionDef | parse.c:164-186 | a function definition consumes tokens |
| ParseSpec.GlobalVar | parse.c:191-197 | a global declaration consumes tokens |
| ParseSpec.GlobalVarIgnoresLocals | parse.c:191-197 | a global declaration reads and writes only the globals |
| ParseSpec.FindVar | parse.c:6-23 | definition: the newest local of the name, else the newest global, else nothing; `ParseFacts.LocalsShadowGlobals` states it |
| ParseSpec.PushVar | parse.c:56-71 | definition: a new variable of offset 0 at the front of the locals or the globals; `Parser.Parser.PushVar` and `ParseFacts.PushKeepsOtherNames` state it |
| ParseSpec.ParseProgram | parse.c:98-117 | definition: functions and global declarations until EOF, starting with both tables empty; `Parser.Parser.ParseProgram` is proved equal to it |
| Parser.Parser.constructor | parse.c:98-102 | a parser starts on the given tokens with both variable lists empty |
| Parser.Parser.PushVar | parse.c:56-71 | `push_var` prepends one entry to the locals or to the globals, and leaves the other list unchanged |
| Parser.Parser.ParseExpr | parse.c:293 | the method moves the cursor and returns exactly what the rule `Expression` gives, or its error |
| Parser.Parser.ParseAssign | parse.c:298-306 | agrees with `AssignExpr` |
| Parser.Parser.ParseEquality | parse.c:311-323 | the loop agrees with `Equality` |
| Parser.Parser.ParseRelational | parse.c:328-344 | the loop agrees with `Relational` |
| Parser.Parser.ParseAdd | parse.c:349-361 | the loop agrees with `AddExpr` |
| Parser.Parser.ParseMul | parse.c:366-378 | the loop agrees with `MulExpr` |
| Parser.Parser.ParseUnary | parse.c:385-407 | agrees with `UnaryExpr` |
| Parser.Parser.ParsePostfix | parse.c:412-421 | the loop agrees with `PostfixExpr` |
| Parser.Parser.ParsePrimary | parse.c:428-469 | the argument loop and lookup agree with `Primary` |
| Parser.Parser.ParseBaseType | parse.c:119-124 | agrees with `BaseType` |
| Parser.Parser.ParseTypeSuffix | parse.c:126-132 | agrees with `TypeSuffix` |
| Parser.Parser.ParseStmt | parse.c:228-288 | agrees with `Statement`, including the variables it declares |
| Parser.Parser.ParseForClause | parse.c:254-265 | agrees with `ForClause` |
| Parser.Parser.ParseBlockBody | parse.c:268-280 | the loop agrees with `Statements` |
| Parser.Parser.ParseDeclaration | parse.c:202-217 | agrees with `Declaration` |
| Parser.Parser.ParseFuncParam | parse.c:134-142 | agrees with `FuncParam` |
| Parser.Parser.ParseFuncParams | parse.c:144-157 | the loop agrees with `FuncParams` |
| Parser.Parser.ParseFunction | parse.c:164-186 | agrees with `FunctionDef`; the globals are unchanged and the locals are the function's |
| Parser.Parser.ParseGlobalVar | parse.c:191-197 | agrees with `GlobalVar` |
| Parser.Parser.IsFunctionAhead | parse.c:87-93 | `is_function` leaves the cursor where it started, whatever it returns |
| Parser.Parser.ParseProgram | parse.c:98-117 | the loop over definitions computes exactly `ParseProgram` |
| ParseProps.RoundTripExpression | parse.c:293-469 | any well-formed tree, printed with the fewest parentheses, parses back to itself |
| ParseProps.RoundTripAssign | parse.c:298-306 | round trip at the assignment level |
| ParseProps.RoundTripEquality | parse.c:311-323 | round trip at the equality level |
| ParseProps.EqualityLeft | parse.c:311-323 | a left operand is parsed whole before the `==`/`!=` loop continues, which makes the operators left-associative |
| ParseProps.RoundTripRelational | parse.c:328-344 | round trip at the relational level |
| ParseProps.RelationalLeft | parse.c:328-344 | as `EqualityLeft`, for `<`/`<=` |
| ParseProps.RoundTripAdd | parse.c:349-361 | round trip at the additive level |
| ParseProps.AddLeft | parse.c:349-361 | as `EqualityLeft`, for `+`/`-` |
| ParseProps.RoundTripMul | parse.c:366-378 | round trip at the multiplicative level |
| ParseProps.MulLeft | parse.c:366-378 | as `EqualityLeft`, for `*`/`/` |
| ParseProps.RoundTripUnary | parse.c:385-407 | round trip at the unary level |
| ParseProps.RoundTripPrefix | parse.c:386-404 | `&`, `*` and `sizeof` prefixes parse back to their nodes |
| ParseProps.PrintOpens | parse.c:428-469 | a printed tree starts with a token that begins a primary or a prefix |
| ParseProps.RoundTripPostfix | parse.c:412-421 | round trip at the postfix level |
| ParseProps.RoundTripPrimary | parse.c:428-469 | round trip at the primary level |
| ParseProps.RoundTripParens | parse.c:429-433 | a parenthesised tree parses back to itself |
| ParseProps.RoundTripCall | parse.c:435-460 | a call parses back with all its arguments |
| ParseProps.RoundTripArgs | parse.c:448-458 | an argument list parses back to itself |
| ParseProps.RoundTripArgsTail | parse.c:452-456 | the comma loop parses back the remaining arguments |
| ParseProps.RoundTripArgsStep | parse.c:452-456 | one comma step of the argument loop |
| ParseProps.ArgsTailStep | parse.c:452-456 | a comma and an expression append that expression to the arguments |
| ParseFacts.GreaterStep | parse.c:336-337 | `>` builds LT with the operands swapped |
| ParseFacts.GreaterEqualStep | parse.c:338-339 | `>=` builds LE with the operands swapped |
| ParseFacts.RelationalStops | parse.c:340-341 | the relational loop stops at a token that is not a relational operator |
| ParseFacts.GreaterSwaps | parse.c:336-337 | `a > b` parses as LT(b, a) |
| ParseFacts.GreaterEqualSwaps | parse.c:338-339 | `a >= b` parses as LE(b, a) |
| ParseFacts.UnaryMinus | parse.c:394-396 | `-x` parses as SUB(NUM 0, x) |
| ParseFacts.UnaryPlus | parse.c:390-392 | `+x` parses as x |
| ParseFacts.SubscriptStep | parse.c:415-419 | one `[i]` wraps the node as DEREF(ADD(node, i)) |
| ParseFacts.Subscript | parse.c:412-421 | `a[i]` parses as DEREF(ADD(a, i)) |
| ParseFacts.SubtractionLeftAssociative | parse.c:349-361 | `a - b - c` parses as (a - b) - c |
| ParseFacts.AssignmentRightAssociative | parse.c:298-306 | `a = b = c` parses as a = (b = c) |
| ParseFacts.MultiplicationBindsTighter | parse.c:349-378 | `a + b * c` parses as a + (b * c) |
| ParseFacts.FivePlusSixTimesSeven | parse.c:349-378 | the tokens of `5+6*7` parse as ADD(5, MUL(6, 7)) |
| ParseFacts.CallKeepsAllArguments | parse.c:437-459 | a call keeps every argument it parses, in order, and its count equals their number, with no cap of 6 |
| ParseFacts.UndefinedName | parse.c:462-463 | an identifier not followed by `(` and found in neither table is an "undefined variable" error at its offset |
| ParseFacts.CallsAreNotResolved | parse.c:437-446 | a call's name is not looked up in the variable tables |
| ParseFacts.PushedLocalIsFound | parse.c:6-13 | right after it is pushed, a local is the one found under its name |
| ParseFacts.PushKeepsOtherNames | parse.c:56-71 | pushing a variable does not change the lookup of any other name |
| ParseFacts.LocalsShadowGlobals | parse.c:6-23 | after a global is pushed, its name finds the local of that name if there is one, and the new global otherwise |
| ParseFacts.PointerToInside | type.c:9-14 | wrapping a pointer k times equals pointing to a k-times-wrapped type |
| ParseFacts.StarsRead | parse.c:122 | k stars give k nested pointers |
| ParseFacts.BaseTypeRead | parse.c:119-124 | `int` with k stars gives k nested pointers to int |
| ParseFacts.BaseTypeNeedsInt | parse.c:120 | without `int` first, `basetype` fails with "expected int" |
| ParseFacts.TypeSuffixRead | parse.c:126-132 | `[2][3]` gives array 2 of array 3 of the base, the innermost dimension last |
| ParseFacts.DeclarationNullStep | parse.c:209 | a declaration ending in `;` pushes the variable and yields the empty statement |
| ParseFacts.DeclarationInitStep | parse.c:211-216 | a declaration with `=` yields EXPR_STMT(ASSIGN(VAR v, e)) |
| ParseFacts.DeclarationWithoutInit | parse.c:202-209 | `int **x[2][3];` declares x with that type and yields the empty statement |
| ParseFacts.SemicolonStops | parse.c:214 | every loop of the expression parser stops at `;` |
| ParseFacts.DeclarationWithInit | parse.c:202-217 | `int x = e;` yields EXPR_STMT(ASSIGN(VAR x, e)) |
| ParseFacts.DeclarationSeesItself | parse.c:207-213 | the initialiser already sees the variable being declared |
| Typing.AddrType | type.c:80-85 | address-of an array points to its element; address-of anything else points to it |
| Typing.TypeOf | type.c:65-75 | definition: the type a typed node carries |
| Typing.TypeBinary | type.c:50-76 | definition: the typing rule of each binary operator; `TypingFacts.AddRule`, `SubRule` and `IntRule` state it |
| Typing.Visit | type.c:35-97 | the walk types every node of a tree it accepts |
| Typing.VisitArgs | type.c:48 | arguments are typed one by one, each kept in its place |
| Typing.VisitOpt | type.c:36 | an absent child stays absent and a present one is typed |
| Typing.VisitStmt | type.c:35-48 | a statement's expressions are all typed |
| Typing.VisitStmts | type.c:46 | every statement of a list is typed, in place |
| Typing.TypeFunction | type.c:100-104 | typing a function keeps its name, parameters and locals |
| Typing.TypeFunctions | type.c:99-105 | one typed function per function |
| Typing.VisitStmtsFirstFailure | type.c:101-103 | the walk over a list stops with the error of the first statement that fails |
| Typing.TypeFunctionsFirstFailure | type.c:100-104 | the walk over the functions stops with the error of the first one that fails |
| Typing.AddType | type.c:99-105 | the nested loops of `add_type` compute exactly `TypeFunctions` |
| TypingFacts.VisitFixesResolved | type.c:35-97 | typing a tree whose types are already consistent gives it back unchanged |
| TypingFacts.VisitArgsFixesResolved | type.c:48 | as above, for argument lists |
| TypingFacts.VisitIdempotent | type.c:35-97 | typing twice gives the result of typing once |
| TypingFacts.VisitOptFixesResolved | type.c:36 | as above, for optional children |
| TypingFacts.VisitStmtFixesResolved | type.c:35-48 | as above, for statements |
| TypingFacts.VisitStmtsFixesResolved | type.c:46 | as above, for statement lists |
| TypingFacts.TypeFunctionsResolve | type.c:99-105 | after `add_type` every statement of every function is resolved |
| TypingFacts.TypeFunctionsFixResolved | type.c:99-105 | `add_type` leaves resolved functions unchanged |
| TypingFacts.AddTypeIdempotent | type.c:99-105 | running `add_type` twice gives the result of running it once |
| TypingFacts.AddRule | type.c:64-72 | after ADD a pointer operand sits on the left; two pointer operands are "Invalid pointer arithmetic"; the type is the new left's |
| TypingFacts.SubRule | type.c:73-76 | SUB with a pointer or array on the right fails; otherwise it has the left's type |
| TypingFacts.IntRule | type.c:51-60 | MUL, DIV, EQ, NE, LT and LE get type int |
| TypingFacts.AddrOfArray | type.c:81-82 | address-of an array of T has type pointer to T |
| TypingFacts.DerefRule | type.c:86-89 | dereferencing an operand without a base type fails; otherwise it has the base type |
| TypingFacts.SizeOfRule | type.c:90-95 | SIZEOF becomes a NUM of type int whose value is the size of the operand's type, with no child |
| TypingFacts.SizeOfExamples | type.c:90-95 | `sizeof(1)` is 4, `sizeof x` is 4 for int x and 8 for a pointer, 12 for `int x[3]` |
| TypingFacts.SizeOfPointerExamples | type.c:90-95 | `sizeof &x` is 8, and so is `sizeof *p` with p an `int **` |
| TypingFacts.ChildErrorFirst | type.c:38-39 | a binary node reports its left child's error before its right child's |
| TypingFacts.ForVisitOrder | type.c:38-44 | a `for` is visited condition, body, initialiser, increment |
| TypingFacts.ForReportsConditionFirst | type.c:40-43 | `for (*1; 1 - &x;)`: the initialiser alone fails with the dereference error and the condition alone with the pointer arithmetic error; the statement reports the condition's |
| Asm.ArgRegsDistinct | codegen.c:3 | the six argument registers are distinct and are neither `rbp` nor `rax` |
| Asm.DeltaAppend | codegen.c:29-178 | the stack effect of concatenated code is the sum of the effects |
| Asm.BinOpCodeNeutral | codegen.c:139-176 | the operation code of every binary operator leaves the stack depth alone and has no labels |
| Asm.OperateCodeEffect | codegen.c:136-178 | popping both operands, operating and pushing `rax` nets one pop |
| Machine.SetReg | codegen.c:136-178 | writing a register changes that register only |
| Machine.TruncDiv | codegen.c:149-152 | definition: C's quotient, rounded toward zero; `TruncDivRounds` states it |
| Machine.TruncDivRounds | codegen.c:149-152 | the quotient leaves a remainder smaller than the divisor in magnitude and either zero or of the dividend's sign |
| Machine.Step | codegen.c:133-178 | definition: what one straight-line instruction does to the stack, registers, flags and memory; `pop` on an empty stack and `idiv` by zero fault |
| Machine.Apply | codegen.c:139-172 | definition: the C value of each binary operator on `int`, comparisons as 0 or 1; no value for a division by zero |
| Machine.ArgValues | codegen.c:75-77 | the values of the first k argument registers, in order |
| Machine.RunAppend | codegen.c:29-178 | running concatenated code runs the first part and then the second |
| Machine.PopOperands | codegen.c:136-137 | `pop rdi; pop rax` leaves the right operand in `rdi` and the left one in `rax` |
| Machine.OperateDiv | codegen.c:149-152 | `cqo; idiv rdi` leaves the quotient rounded toward zero in `rax`, and faults on a zero divisor |
| Machine.OperateCompare | codegen.c:153-171 | `cmp; set<cc> al; movzb rax, al` leaves 1 in `rax` when the comparison holds and 0 otherwise |
| Machine.Operate | codegen.c:139-176 | the operation code of each operator leaves the C value of `rax op rdi` in `rax` |
| Machine.Combine | codegen.c:133-178 | with the two operands on the stack, the binary path replaces them by their C combination |
| CodegenSpec.GenAddr | codegen.c:8-14 | `gen_addr` succeeds exactly on a variable; anything else is "Left side of assignment is not a variable" |
| CodegenSpec.CallCount | codegen.c:64-68 | a call passes min(6, number of arguments) arguments |
| CodegenSpec.PopArgs | codegen.c:75-77 | the i-th pop goes into the i-th argument register |
| CodegenSpec.ParamCopies | codegen.c:195-199 | the i-th parameter is stored from the i-th argument register at its offset |
| CodegenSpec.GenExpr | codegen.c:29-179 | definition: the code of each expression kind; `CodegenEffect.ExprPushesOne` and `CodegenCorrect.ExprCorrect` state it |
| CodegenSpec.GenArgs | codegen.c:63-72 | definition: the code of the first k arguments, last first |
| CodegenSpec.Branch | codegen.c:53-55 | definition: pop the condition, compare it with 0 and jump when it is 0 |
| CodegenSpec.GenClause | codegen.c:46-62 | definition: an absent `for` clause gives no code, a present one its code followed by a pop, as corrected in Findings |
| CodegenSpec.GenStmt | codegen.c:29-130 | definition: the code of each statement kind and the next free label number, with `for` as corrected in Findings; `CodegenEffect.StmtNeutral` and `CodegenLabels.StmtLabels` state it |
| CodegenSpec.GenStmts | codegen.c:37-39 | definition: the statements' code in order, the label counter running on |
| CodegenSpec.Prologue | codegen.c:185-192 | definition: `.global`, the function label, and the frame set-up of `stack_size` bytes |
| CodegenSpec.Epilogue | codegen.c:204-207 | definition: the return label and the frame tear-down before `ret` |
| CodegenSpec.GenFunction | codegen.c:184-208 | definition: prologue, parameter copies, body and epilogue; more than 6 parameters give `TooManyParams` |
| CodegenSpec.GenFunctions | codegen.c:184-208 | definition: every function in order, the label counter running on from one to the next |
| CodegenSpec.GenProgram | codegen.c:181-209 | definition: the Intel-syntax directive followed by every function; `CodegenLabels.ProgramLabels` states it |
| Codegen.Generator.constructor | codegen.c:5-6 | output empty, label counter 0 |
| Codegen.Generator.GenAddr | codegen.c:8-14 | appends exactly what `CodegenSpec.GenAddr` gives, or fails without output |
| Codegen.Generator.Load | codegen.c:16-20 | appends the three load instructions |
| Codegen.Generator.Store | codegen.c:22-27 | appends the four store instructions |
| Codegen.Generator.Gen | codegen.c:29-178 | appends exactly the specified code of the expression; the counter and function name are unchanged |
| Codegen.Generator.GenAssign | codegen.c:31-36 | appends address, value and store |
| Codegen.Generator.GenBinary | codegen.c:133-178 | appends left operand, right operand and operation |
| Codegen.Generator.GenCall | codegen.c:63-82 | collects at most 6 arguments into an array, generates them last first, pops them into the argument registers, zeroes `rax` and calls |
| Codegen.Generator.PopArgsInto | codegen.c:75-77 | appends the pops into the first `count` argument registers |
| Codegen.Generator.GenArgList | codegen.c:70-72 | the loop over the argument array appends the arguments' code, last first |
| Codegen.Generator.GenStatement | codegen.c:29-130 | appends exactly the specified code of the statement and advances the counter as specified |
| Codegen.Generator.GenBlock | codegen.c:37-40 | agrees with the specification of a block |
| Codegen.Generator.GenStatements | codegen.c:38 | the loop over a statement list agrees with `GenStmts` |
| Codegen.Generator.GenIf | codegen.c:83-102 | takes two numbers from the counter and agrees with the specification of IF |
| Codegen.Generator.GenWhile | codegen.c:118-130 | takes two numbers from the counter and agrees with the specification of WHILE |
| Codegen.Generator.GenFor | codegen.c:46-62 | takes two numbers from the counter and agrees with the corrected specification of FOR |
| Codegen.Generator.GenOptional | codegen.c:49-58 | an absent clause emits nothing, a present one its code and the given tail |
| Codegen.Generator.GenFunctionCode | codegen.c:184-207 | sets the function name and appends prologue, parameter copies, body and epilogue as specified |
| Codegen.Generator.CopyParams | codegen.c:195-199 | the loop stores the i-th parameter from the i-th argument register at its offset; a seventh parameter, where the source would read past `argreg`, is reported as `TooManyParams` |
| Codegen.Generator.Codegen | codegen.c:181-209 | appends the directive and every function, exactly `GenProgram` |
| Codegen.Generator.GenFunctionsCode | codegen.c:184-208 | the loop over the functions agrees with `GenFunctions` |
| CodegenEffect.ExprPushesOne | codegen.c:29-178 | every expression's code pushes exactly one value and defines no label |
| CodegenEffect.LoadEffect | codegen.c:16-20 | `load` is stack neutral |
| CodegenEffect.StoreEffect | codegen.c:22-27 | `store` nets one pop |
| CodegenEffect.CallTailEffect | codegen.c:78-80 | the call tail pushes one value |
| CodegenEffect.BranchEffect | codegen.c:87-92 | the conditional branch pops the condition and jumps only to its target |
| CodegenEffect.VarEffect | codegen.c:103-107 | a variable's code pushes one value |
| CodegenEffect.AssignEffect | codegen.c:31-36 | an assignment's code pushes one value |
| CodegenEffect.BinaryEffect | codegen.c:133-178 | a binary node's code pushes one value |
| CodegenEffect.CallEffect | codegen.c:63-82 | a call's code pushes one value |
| CodegenEffect.ArgsPushK | codegen.c:70-72 | the code of k arguments pushes k values |
| CodegenEffect.ClauseNeutral | codegen.c:49-58 | a clause followed by a one-value pop is stack neutral |
| CodegenEffect.StmtNeutral | codegen.c:37-130 | with `for` corrected as in Findings, every statement's code leaves the stack depth unchanged |
| CodegenEffect.StmtsNeutral | codegen.c:38 | with `for` corrected as in Findings, so does every statement list |
| CodegenEffect.IfNeutral | codegen.c:83-102 | IF without else is stack neutral |
| CodegenEffect.IfElseNeutral | codegen.c:83-102 | IF with else is stack neutral |
| CodegenEffect.WhileNeutral | codegen.c:118-130 | WHILE is stack neutral |
| CodegenEffect.ForNeutral | codegen.c:46-62 | FOR with its clauses popped is stack neutral |
| CodegenLabels.StmtLabels | codegen.c:47-48 | a statement only defines labels numbered from the counter's old to its new value, each once, the counter never decreases, and its jumps land on its own labels or the return label |
| CodegenLabels.IfLabels | codegen.c:84-85 | IF defines `.Lend` and possibly `.Lelse` under its two fresh numbers |
| CodegenLabels.ForLabels | codegen.c:47-48 | FOR defines `.Lbegin` and `.Lend` under its two fresh numbers |
| CodegenLabels.StmtsLabels | codegen.c:38 | the same for a statement list |
| CodegenLabels.EpilogueLabels | codegen.c:204-207 | the epilogue defines the function's return label and nothing else |
| CodegenLabels.FunctionLabels | codegen.c:184-207 | a function defines its return label exactly once, after its body, and all its jumps land inside it |
| CodegenLabels.FunctionsLabels | codegen.c:184-208 | the counter runs on across functions and each function's labels are fresh |
| CodegenLabels.FunctionsDistinct | codegen.c:184-208 | if no two functions share a name (parse.c does not check this), no label is defined twice |
| CodegenLabels.ProgramLabels | codegen.c:181-209 | if no two functions share a name, the whole output defines each label once; every jump lands on a defined label; the counter ends at twice the number of IF, WHILE and FOR statements |
| CodegenCorrect.ExprCorrect | codegen.c:29-178 | running an expression's code pushes the expression's C value and makes its assignments to memory; division by zero faults |
| CodegenCorrect.AddrCorrect | codegen.c:8-14 | `gen_addr` pushes `rbp - offset` |
| CodegenCorrect.LoadCorrect | codegen.c:16-20 | `load` replaces an address by the value stored there |
| CodegenCorrect.StoreCorrect | codegen.c:22-27 | `store` writes the value at the address and leaves the value in place of both |
| CodegenCorrect.VarCorrect | codegen.c:103-107 | a variable's code pushes its value |
| CodegenCorrect.AssignCorrect | codegen.c:31-36 | an assignment writes the value and evaluates to it |
| CodegenCorrect.BinaryCorrect | codegen.c:133-178 | the left operand is computed before the right one; `rdi` holds the right and `rax` the left; comparisons give 0 or 1 |
| CodegenCorrect.PopsCorrect | codegen.c:75-77 | the pops put argument i into argument register i |
| CodegenCorrect.CallTailCorrect | codegen.c:78-80 | `rax` is zeroed before the call and the callee's result is pushed |
| CodegenCorrect.ArgsCorrect | codegen.c:70-72 | the arguments' code pushes their values in reverse order |
| CodegenCorrect.CallCorrect | codegen.c:63-82 | a call passes its first 6 argument values in the argument registers and pushes the result |
| CodegenFinding.ForAsWrittenLeaks | codegen.c:46-62 | as written, the initialiser leaves one value and every pass leaves one more |
| CodegenFinding.ForLeakExample | codegen.c:46-62 | `for (i = 0; i < 3; i = i + 1) {}` as written is not stack neutral: after its initialiser, three passes and the exiting test it has left four values on the stack |
| CodegenFinding.AfterPasses | codegen.c:46-62 | definition: the stack growth of the code as written after the initialiser, k passes and a last test that exits |
| CodegenFinding.ForAsWrittenAfterPasses | codegen.c:46-62 | as written, a loop that makes k passes and exits leaves one value if it has an initialiser and k more if it has an increment; the exiting test pops what it pushes |
| CodegenFinding.ForPassNeutral | codegen.c:46-62 | with the pops, the initialiser and each pass are stack neutral |
| YccLex.ScanAt | ycc.c:108-140 | one iteration: skips exactly whitespace; an emitted token starts at the offset and covers the characters it spans |
| YccLex.ScanReserved | ycc.c:116-129 | a reserved token is a two-character comparison or a single character of `+-*/<>()` |
| YccLex.ScanNumber | ycc.c:131-137 | a number token is the maximal digit run and carries its decimal value |
| YccLex.ScanNoRule | ycc.c:139 | no rule applies exactly when the character is none of whitespace, an operator character, a digit or the start of a comparison |
| YccLex.Tokenize | ycc.c:103-144 | the pointer loop computes exactly the recursive scan `Lex` |
| YccLex.Lex | ycc.c:103-144 | definition: the scan as a recursion over the offset; its properties are the `Lex…` lemmas |
| YccLex.StepEmit | ycc.c:95-101 | appending one token is one step of the scan |
| YccLex.LexEmit | ycc.c:95-101 | where a rule emits a token, the scan is that token followed by the rest |
| YccLex.LexEofLast | ycc.c:142 | a successful scan ends with exactly one EOF token |
| YccLex.LexFirst | ycc.c:108-142 | the first token sits at or after the start |
| YccLex.LexSteps | ycc.c:108-142 | each token is the rules' emission at its offset, in text order |
| YccLex.LexFailure | ycc.c:139 | a failed scan names an offset where no rule applies |
| YccParse.ExpectOp | ycc.c:77-83 | succeeds exactly on a matching reserved token and then advances one token; otherwise "expected" at its offset |
| YccParse.ExpectNumber | ycc.c:85-91 | succeeds exactly on a number token, returning its value and advancing one token |
| YccParse.Expression | ycc.c:173-175 | a successful parse consumes at least one token (as do the other rules below) |
| YccParse.Equality | ycc.c:177-189 | as above, for `equality` |
| YccParse.EqualityTail | ycc.c:180-188 | the loop never grows the remaining input |
| YccParse.Relational | ycc.c:191-207 | as above, for `relational` |
| YccParse.RelationalTail | ycc.c:194-206 | the loop never grows the remaining input |
| YccParse.AddExpr | ycc.c:209-221 | as above, for `add` |
| YccParse.AddTail | ycc.c:212-220 | the loop never grows the remaining input |
| YccParse.MulExpr | ycc.c:223-235 | as above, for `mul` |
| YccParse.MulTail | ycc.c:226-234 | the loop never grows the remaining input |
| YccParse.UnaryExpr | ycc.c:237-247 | as above, for `unary` |
| YccParse.Primary | ycc.c:249-257 | as above, for `primary` |
| YccParse.Parser.constructor | ycc.c:319-320 | the cursor starts at the first token |
| YccParse.Parser.Consume | ycc.c:68-75 | advances exactly one token on a matching reserved token, otherwise leaves the cursor unchanged |
| YccParse.Parser.Expect | ycc.c:77-83 | advances one token on a match, otherwise fails at the token's offset |
| YccParse.Parser.ExpectNum | ycc.c:85-91 | returns the number and advances one token, or fails at the token's offset |
| YccParse.Parser.ParseExpr | ycc.c:173-175 | agrees with `Expression` |
| YccParse.Parser.ParseEquality | ycc.c:177-189 | the loop agrees with `Equality` |
| YccParse.Parser.ParseRelational | ycc.c:191-207 | the loop agrees with `Relational`, `>`/`>=` swapped into LT/LE |
| YccParse.Parser.ParseAdd | ycc.c:209-221 | the loop agrees with `AddExpr` |
| YccParse.Parser.ParseMul | ycc.c:223-235 | the loop agrees with `MulExpr` |
| YccParse.Parser.ParseUnary | ycc.c:237-247 | agrees with `UnaryExpr`: `+x` is x, `-x` is SUB(0, x) |
| YccParse.Parser.ParsePrimary | ycc.c:249-257 | agrees with `Primary` |
| YccProps.RoundTripExpression | ycc.c:173-257 | any tree, printed with the fewest parentheses, parses back to itself when what follows cannot continue the expression |
| YccProps.RoundTripEquality | ycc.c:177-189 | round trip at the equality level |
| YccProps.EqualityStep | ycc.c:180-188 | one `==`/`!=` step of the loop builds the node of that operator on the tree so far |
| YccProps.EqualityLeft | ycc.c:177-189 | a left operand is parsed whole before the loop goes on, so `==`/`!=` associate to the left |
| YccProps.RoundTripRelational | ycc.c:191-207 | round trip at the relational level |
| YccProps.RelationalStep | ycc.c:195-198 | one `<`/`<=` step builds LT/LE on the tree so far |
| YccProps.RelationalLeft | ycc.c:191-207 | as `EqualityLeft`, for `<`/`<=` |
| YccProps.RoundTripAdd | ycc.c:209-221 | round trip at the additive level |
| YccProps.AddStep | ycc.c:212-220 | one `+`/`-` step builds ADD/SUB on the tree so far |
| YccProps.AddLeft | ycc.c:209-221 | as `EqualityLeft`, for `+`/`-` |
| YccProps.RoundTripMul | ycc.c:223-235 | round trip at the multiplicative level |
| YccProps.MulStep | ycc.c:226-234 | one `*`/`/` step builds MUL/DIV on the tree so far |
| YccProps.MulLeft | ycc.c:223-235 | as `EqualityLeft`, for `*`/`/` |
| YccProps.RoundTripUnary | ycc.c:237-247 | round trip at the unary level |
| YccProps.RoundTripPrimary | ycc.c:249-257 | round trip at the primary level: a number, or a parenthesised tree |
| YccProps.GreaterSwaps | ycc.c:199-200 | for all a and b, `a > b` parses as LT(b, a) |
| YccProps.GreaterEqualSwaps | ycc.c:201-202 | for all a and b, `a >= b` parses as LE(b, a) |
| YccProps.UnaryMinus | ycc.c:242-244 | for all x, `-x` parses as SUB(0, x) |
| YccProps.UnaryPlus | ycc.c:238-240 | for all x, `+x` parses as x |
| YccProps.SubtractionLeftAssociative | ycc.c:209-221 | for all a, b and c, `a - b - c` parses as (a - b) - c |
| YccProps.MultiplicationBindsTighter | ycc.c:209-235 | for all a, b and c, `a + b * c` parses as a + (b * c) |
| YccGen.GenPushesOne | ycc.c:259-311 | the code of any tree nets exactly one push |
| YccGen.Gen | ycc.c:259-311 | definition: a number is pushed; a binary node is its left code, its right code and the operation; `GenPushesOne` and `GenCorrect` state it |
| YccGen.Body | ycc.c:328-331 | definition: the tree's code followed by `pop rax`; `BodyReturnsValue` states it |
| YccGen.MainCode | ycc.c:324-332 | definition: the directives and `main:` label, the body, and `ret` |
| YccGen.Compile | ycc.c:314-333 | definition: the lexed and parsed input wrapped in `main`, or the first lexing or parsing error; `CompileCorrect` states it |
| YccGen.GenCorrect | ycc.c:259-311 | running a tree's code pushes its C value, comparisons as 0/1 and division rounding toward zero, and leaves memory alone; a division by zero faults |
| YccGen.BodyReturnsValue | ycc.c:328-331 | `main`'s body leaves the expression's value in `rax` and the stack as it found it |
| YccGen.CompileCorrect | ycc.c:314-333 | whenever the compiler accepts the input and the parsed tree has a value (no division by zero), running `main`'s body leaves that value in `rax` and the stack as it found it |
| YccExamples.DigitAt | ycc.c:131-137 | a lone digit lexes as a number token of its value |
| YccExamples.TwoDigitsAt | ycc.c:131-137 | two digits lex as one number token of their decimal value |
| YccExamples.OpAt | ycc.c:125-129 | an operator character not followed by `=` lexes as a one-character token |
| YccExamples.TailsStop | ycc.c:180-234 | every operator loop stops at the EOF token |
| YccExamples.WholeUnary | ycc.c:173-247 | a unary followed by EOF is the whole expression |
| YccExamples.ParsedFrom | ycc.c:320-321 | the compiled tree is the parse of the tokens |
| YccExamples.LexFiveSixSeven | ycc.c:103-144 | `5+6*7` lexes as five tokens and EOF |
| YccExamples.ParseFiveSixSeven | ycc.c:209-235 | those tokens parse as ADD(5, MUL(6, 7)) |
| YccExamples.FiveSixSeven | ycc.c:173-257 | `5+6*7` compiles to ADD(5, MUL(6, 7)) whose value is 47 |
| YccExamples.LexMinusMinusTen | ycc.c:103-144 | `- -10` lexes as `-`, `-`, 10 and EOF |
| YccExamples.ParseMinusMinusTen | ycc.c:237-247 | those tokens parse as SUB(0, SUB(0, 10)) |
| YccExamples.MinusMinusTen | ycc.c:237-247 | `- -10` has the value 10 |
| YccExamples.LexGreater | ycc.c:103-144 | `1>0` lexes as 1, `>`, 0 and EOF |
| YccExamples.GreaterTokens | ycc.c:199-201 | those tokens parse as LT(0, 1) |
| YccExamples.GreaterSwaps | ycc.c:199-201 | `1>0` parses as LT(0, 1), whose value is 1 |

## Left out

- Output and input: `printf` of the assembly text, the spelling of each
  instruction, `error`/`error_at` messages and caret printing, and
  `exit(1)`. Each error is a `Fail` value naming the error and its offset.
- main.c (the driver that reads argv and prints) and the shell-out tests in
  test/test_ycc.c. A few of the tests' expected values appear as example
  lemmas (`YccExamples`).
- ycc.h: its `Var`, `Node` and `Program` shapes are older than the ones
  parse.c and codegen.c use. The data shapes follow the use sites.
- Memory management (`calloc`, `malloc`, `strndup`) and raw `char*` spans:
  sequences and offsets replace them.
- Variable offsets and a function's `stack_size`: no part of the modelled
  code computes them, so they are fields of the input.
- Machine integers: values are unbounded. 64-bit wrap-around of
  `add`/`sub`/`imul`, the `INT_MIN / -1` trap of `idiv` and `strtol`
  overflow are not modelled.
- The lexer of tokenize.c does not produce `int`, `sizeof`, `[` or `]`,
  yet parse.c expects them. The parser is modelled over any token sequence
  (`ParseSpec`), so these tokens can reach it; the lexer is modelled as
  written and does not produce them.
- `peek` is not in the modelled files. It is modelled as the test `expect`
  makes, without advancing.
- Code generation for address-of, dereference and the empty statement:
  codegen.c has no case for them. `GenExpr`/`GenStmt` fail with
  `MissingOperand` instead of crashing in `gen(NULL)`.
- Global variables in codegen: `gen_addr` addresses every variable through
  `rbp`, as written; globals get no storage.
- The machine of `Machine` runs straight-line code only. It has registers
  (with `al` kept as its own register, written by `set<cc>` and read by
  `movzb`), an operand stack separate from the frame, and a memory map. Statements, jumps and `ret` have no run semantics;
  statements are proved stack neutral and well labelled instead.
- Callees are parameters (`Callee`): the value they return from their
  arguments. They do not write memory, and their arity is not checked.
- `visit` in type.c rewrites nodes in place. `Typing.Visit` returns the
  rewritten tree, so aliasing of shared nodes is not captured.
- Codegen.Generator.GenFor: the method follows the corrected `for` (see
  Findings); the code as written is `CodegenFinding.ForAsWritten`.
- CodegenSpec.GenStmt: `for` is the corrected one, with its initialiser and
  increment popped; as written it is not stack neutral (Findings).
- CodegenEffect.StmtNeutral: holds for the corrected `for` only; the
  leak of the code as written is `CodegenFinding.ForAsWrittenLeaks`.
- CodegenEffect.StmtsNeutral: as `StmtNeutral`, for the corrected `for`.
- CodegenSpec.GenFunction: a function with more than 6 parameters is a
  `TooManyParams` failure. codegen.c:195-199 would read past the six-entry
  `argreg` table instead, and parse.c sets no limit on parameters; that
  out-of-bounds read has no model.
- Codegen.Generator.CopyParams: as `GenFunction`, a seventh parameter is
  reported as `TooManyParams` instead of reading past `argreg`.
- CodegenLabels.ProgramLabels: assumes no two functions share a name,
  because each return label is `.Lreturn` followed by the name and parse.c
  does not reject duplicates. `FunctionsDistinct` takes the same hypothesis.
- ycc.c `main` never calls `at_eof`, so tokens after the expression are
  ignored. `YccGen.Parsed` likewise parses one expression from the front.
- ycc.c's "Invalid node" default in `gen` is unreachable: `YccParse.Node`
  has only the number and binary cases.
- Typing.Visit: size_of's "Unknown type" error is unreachable, because a
  type is int, pointer or array.
- `Parser`: the class models the cursor and the two variable lists as
  fields. `new_node` and the other constructors are datatype values.

## Findings

| source | as written | input that shows it | evidently intended | confidence | as-written member | corrected member |
|---|---|---|---|---|---|---|
| codegen.c:46-62 | `gen(node->init)` and `gen(node->inc)` push the expressions' values and nothing pops them, so the stack grows by one before the loop and by one on every pass | `for (i = 0; i < 3; i = i + 1) {}` leaves four values on the stack: one for the initialiser and one for each of its three passes | pop each value with `add rsp, 8`, as EXPR_STMT does, so the statement is stack neutral | not executed | CodegenFinding.ForLeakExample | CodegenFinding.ForPassNeutral |
