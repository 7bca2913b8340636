/** The NOC syntax tree handed from the parser to the compiler. */
module Ast {
  import opened Wrappers
  import opened Word

  /** NTYPE_VOID; every other type code only says "has a value". */
  const VOID: nat := 0
  const I64: nat := 1
  const STR: nat := 4

  datatype UnOp = Neg | Not | BNot

  /** `x = e` and the four compound assignments `+= -= *= /=`. */
  datatype AssignOp = Set | Compound(op: AluOp)

  datatype Expr =
    | Lit(val: u64)
    | StrLit(text: string)
    | Var(name: string)
    | Call(callee: string, args: seq<Expr>)
    | Bin(op: AluOp, a: Expr, b: Expr)
    | AndAnd(a: Expr, b: Expr)
    | OrOr(a: Expr, b: Expr)
    | Un(uop: UnOp, a: Expr)
    | PreInc(a: Expr, up: bool)
    | PostInc(name: string, up: bool)
    | Assign(aop: AssignOp, name: string, a: Expr)

  datatype ForInit =
    | NoInit
    | DeclInit(name: string, ty: nat, init: Option<Expr>)
    | ExprInit(e: Expr)

  datatype Stmt =
    | ExprStmt(e: Expr)
    | VarDecl(name: string, ty: nat, init: Option<Expr>)
    | Block(body: seq<Stmt>)
    | If(cond: Expr, thn: Stmt, els: Option<Stmt>)
    | While(cond: Expr, loop: Stmt)
    | For(start: ForInit, test: Option<Expr>, post: Option<Expr>, loop: Stmt)
    | Return(value: Option<Expr>)
    | FuncDecl(name: string, ret: nat, params: seq<Param>, body: seq<Stmt>)

  datatype Param = Param(name: string, ty: nat, def: Option<u64>)

  /** A local variable of the function being compiled. */
  datatype Sym = Sym(name: string, ty: nat)

  /** The compiler accepts only four operators in a compound assignment. */
  predicate CompoundOk(op: AluOp) {
    op in {Add, Sub, Mul, Div}
  }
}
