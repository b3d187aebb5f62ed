/** The syntax tree parse.c builds and type.c annotates. A node's `ty` is
    `None` until the type pass sets it. */
module Ast {
  import opened Errors
  import opened Types

  /** The binary node kinds; `>` and `>=` have none, the parser swaps their
      operands into `Lt` and `Le`. */
  datatype BinOp = Add | Sub | Mul | Div | Eq | Ne | Lt | Le

  /** A declared variable: `name`, `ty`, `is_local`, and the frame `offset`
      that a later pass assigns (the parser leaves it 0). */
  datatype Var = Var(name: string, ty: Type, isLocal: bool, offset: int)

  /** Expression nodes. `Call` keeps the argument list and the `argnum`
      counter the parser maintains beside it. */
  datatype Expr =
    | Num(val: int, ty: Option<Type>)
    | VarRef(v: Var, ty: Option<Type>)
    | Binary(op: BinOp, lhs: Expr, rhs: Expr, ty: Option<Type>)
    | Assign(lhs: Expr, rhs: Expr, ty: Option<Type>)
    | Addr(lhs: Expr, ty: Option<Type>)
    | Deref(lhs: Expr, ty: Option<Type>)
    | SizeOf(lhs: Expr, ty: Option<Type>)
    | Call(name: string, args: seq<Expr>, argnum: int, ty: Option<Type>)

  /** Statement nodes. `Null` is the node a declaration without an
      initialiser becomes; `For` keeps its optional clauses as bare
      expressions. */
  datatype Stmt =
    | ReturnStmt(val: Expr)
    | IfStmt(cond: Expr, thenS: Stmt, elseS: Option<Stmt>)
    | WhileStmt(cond: Expr, body: Stmt)
    | ForStmt(init: Option<Expr>, test: Option<Expr>, inc: Option<Expr>, body: Stmt)
    | Block(stmts: seq<Stmt>)
    | ExprStmt(expr: Expr)
    | Null

  /** A function definition; `stackSize` is given by the frame layout pass
      that is not part of this model (the parser leaves it 0). */
  datatype Function = Function(name: string, params: seq<Var>, body: seq<Stmt>, locals: seq<Var>, stackSize: int)

  datatype Program = Program(funcs: seq<Function>, globals: seq<Var>)

  // Node constructors as the parser uses them: `calloc` leaves `ty` unset.

  function Bin(op: BinOp, l: Expr, r: Expr): Expr {
    Binary(op, l, r, None)
  }

  function N(v: int): Expr {
    Num(v, None)
  }
}
