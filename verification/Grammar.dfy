/** The NOC grammar: tokens, how a token list is read as a tree, and how a tree
    is written as tokens. */
module Grammar {
  import opened Word
  import opened Ast

  const MAX_ARGS := 16
  const MAX_TOKS := 512
  const MAX_NODES := 1024

  datatype Tok =
    | TNum(num: u64) | TStr(text: string) | TIdent(name: string) | TType(code: nat)
    | TTrue | TFalse
    | TOp(op: AluOp) | TAndAnd | TOrOr | TBang | TTilde | TInc(up: bool) | TAssign(aop: AssignOp)
    | TLp | TRp | TLb | TRb | TSemi | TComma
    | TIf | TElse | TWhile | TFor | TReturn
    | TEof

  /** What the lexer delivers: the end marker comes last and nowhere else. */
  type Toks = ts: seq<Tok> | |ts| > 0 && (forall i ::
    0 <= i < |ts| ==> (ts[i] == TEof <==> i == |ts| - 1)) witness [TEof]

  datatype Parsed<T> = Ok(value: T, next: nat) | Fail

  /** A successful parse consumed something, and not the end marker. */
  predicate Moved<T>(r: Parsed<T>, ts: Toks, i: nat) { r.Ok? ==> i < r.next < |ts| }

  // ---- levels, loosest first ----

  const ASSIGN := 0
  const OROR := 1
  const MULT := 10
  const UNARY := 11
  const POSTFIX := 12
  const PRIMARY := 13

  function OpLevel(op: AluOp): (l: nat)
    ensures 3 <= l <= MULT
  {
    match op
    case Mul => 10 case Div => 10 case Mod => 10
    case Add => 9 case Sub => 9
    case Shl => 8 case Shr => 8
    case Lt => 7 case Le => 7 case Gt => 7 case Ge => 7
    case Eq => 6 case Ne => 6
    case BAnd => 5
    case BXor => 4
    case BOr => 3
  }

  /** The binary level a token belongs to, 0 if none. */
  function TokLevel(t: Tok): (l: nat)
    ensures l <= MULT
  {
    match t
    case TOp(op) => OpLevel(op)
    case TAndAnd => 2
    case TOrOr => 1
    case _ => 0
  }

  function MakeBin(t: Tok, a: Expr, b: Expr): Expr
    requires TokLevel(t) > 0
  {
    match t
    case TOp(op) => Bin(op, a, b)
    case TAndAnd => AndAnd(a, b)
    case TOrOr => OrOr(a, b)
  }

  // ---- reading expressions ----

  predicate IsUnary(t: Tok) { t == TBang || t == TOp(Sub) || t == TTilde || t.TInc? }

  predicate IsPostfix(t: Tok) { t == TLp || t.TInc? }

  /** The expression of level `l` that starts at token `i`. */
  function ParseAt(l: nat, ts: Toks, i: nat): (r: Parsed<Expr>)
    requires l <= PRIMARY && i < |ts|
    ensures Moved(r, ts, i)
    decreases |ts| - i, 14 - l
  {
    if l == ASSIGN then
      (match ParseAt(OROR, ts, i)
       case Ok(e, j) => AssignRest(ts, j, e)
       case Fail => Fail)
    else if l <= MULT then
      (match ParseAt(l + 1, ts, i)
       case Ok(e, j) => BinRest(l, ts, j, e)
       case Fail => Fail)
    else if l == UNARY then
      if IsUnary(ts[i]) then
        (match ParseAt(UNARY, ts, i + 1)
         case Ok(e, j) => if ts[i].TInc? then
           (if e.Var? then Ok(PreInc(e, ts[i].up), j) else Fail) else Ok(Un(UnaryOf(ts[i]), e), j)
         case Fail => Fail)
      else ParseAt(POSTFIX, ts, i)
    else if l == POSTFIX then
      (match ParseAt(PRIMARY, ts, i)
       case Ok(e, j) => PostRest(ts, j, e)
       case Fail => Fail)
    else ParsePrimary(ts, i)
  }

  function UnaryOf(t: Tok): UnOp { if t == TBang then Not else if t == TTilde then BNot else Neg }

  function ParsePrimary(ts: Toks, i: nat): (r: Parsed<Expr>)
    requires i < |ts|
    ensures Moved(r, ts, i)
    decreases |ts| - i, 0
  {
    match ts[i]
    case TNum(v) => Ok(Lit(v), i + 1)
    case TStr(s) => Ok(StrLit(s), i + 1)
    case TTrue => Ok(Lit(1), i + 1)
    case TFalse => Ok(Lit(0), i + 1)
    case TIdent(x) => Ok(Var(x), i + 1)
    case TLp =>
      (match ParseAt(ASSIGN, ts, i + 1)
       case Ok(e, j) => if ts[j] == TRp then Ok(e, j + 1) else Fail
       case Fail => Fail)
    case _ => Fail
  }

  /** Calls and `++`/`--` after `e`. */
  function PostRest(ts: Toks, i: nat, e: Expr): (r: Parsed<Expr>)
    requires i < |ts|
    ensures r.Ok? ==> i <= r.next < |ts|
    decreases |ts| - i, 0
  {
    if ts[i] == TLp then
      if !e.Var? then Fail
      else if ts[i + 1] == TRp then PostRest(ts, i + 2, Call(e.name, []))
      else
        (match ParseArgs(ts, i + 1, [])
         case Ok(args, j) => if ts[j] == TRp then PostRest(ts, j + 1, Call(e.name, args)) else Fail
         case Fail => Fail)
    else if ts[i].TInc? then
      if e.Var? then PostRest(ts, i + 1, PostInc(e.name, ts[i].up)) else Fail
    else Ok(e, i)
  }

  /** Arguments separated by commas, after the `args` read already. */
  function ParseArgs(ts: Toks, i: nat, args: seq<Expr>): (r: Parsed<seq<Expr>>)
    requires i < |ts| && |args| <= MAX_ARGS
    ensures Moved(r, ts, i) && (r.Ok? ==> |r.value| <= MAX_ARGS)
    decreases |ts| - i, 15
  {
    match ParseAt(ASSIGN, ts, i)
    case Ok(e, j) =>
      if |args| >= MAX_ARGS then Fail
      else if ts[j] == TComma then ParseArgs(ts, j + 1, args + [e])
      else Ok(args + [e], j)
    case Fail => Fail
  }

  /** Operators of level `l` and their right operands, to the left of which is `e`. */
  function BinRest(l: nat, ts: Toks, i: nat, e: Expr): (r: Parsed<Expr>)
    requires OROR <= l <= MULT && i < |ts|
    ensures r.Ok? ==> i <= r.next < |ts|
    decreases |ts| - i, 0
  {
    if TokLevel(ts[i]) != l then Ok(e, i)
    else match ParseAt(l + 1, ts, i + 1)
      case Ok(b, j) => BinRest(l, ts, j, MakeBin(ts[i], e, b))
      case Fail => Fail
  }

  /** An assignment to `e`, or `e` itself. */
  function AssignRest(ts: Toks, i: nat, e: Expr): (r: Parsed<Expr>)
    requires i < |ts|
    ensures r.Ok? ==> i <= r.next < |ts|
    decreases |ts| - i, 0
  {
    if !ts[i].TAssign? then Ok(e, i)
    else if !e.Var? then Fail
    else match ParseAt(ASSIGN, ts, i + 1)
      case Ok(a, j) => Ok(Assign(ts[i].aop, e.name, a), j)
      case Fail => Fail
  }
}
