/** Reading statements and whole lines. */
module StmtGrammar {
  import opened Wrappers
  import opened Word
  import opened Ast
  import opened Grammar

  function ParseExpr(ts: Toks, i: nat): (r: Parsed<Expr>)
    requires i < |ts|
    ensures Moved(r, ts, i)
  {
    ParseAt(ASSIGN, ts, i)
  }

  /** A terminating `;`, which the last statement of a line may omit. */
  function ParseSemi<T>(ts: Toks, i: nat, value: T): (r: Parsed<T>)
    requires i < |ts|
    ensures r.Ok? ==> i <= r.next < |ts|
  {
    if ts[i] == TSemi then Ok(value, i + 1) else if ts[i] == TEof then Ok(value, i) else Fail
  }

  function ParseStmt(ts: Toks, i: nat): (r: Parsed<Stmt>)
    requires i < |ts|
    ensures Moved(r, ts, i)
    decreases |ts| - i, 2
  {
    match ts[i]
    case TType(ty) => ParseDecl(ts, i, ty)
    case TLb => (match ParseBlock(ts, i) case Ok(body, j) => Ok(Block(body), j) case Fail => Fail)
    case TIf => ParseIf(ts, i)
    case TWhile =>
      (match ParseCond(ts, i + 1)
       case Ok(c, j) => (match ParseStmt(ts, j) case Ok(s, k) => Ok(While(c, s), k) case Fail => Fail)
       case Fail => Fail)
    case TFor => ParseFor(ts, i)
    case TReturn =>
      if ts[i + 1] == TSemi then Ok(Return(None), i + 2)
      else (match ParseExpr(ts, i + 1) case Ok(e, j) => ParseSemi(ts, j, Return(Some(e))) case Fail => Fail)
    case TEof => Fail
    case _ => (match ParseExpr(ts, i) case Ok(e, j) => ParseSemi(ts, j, ExprStmt(e)) case Fail => Fail)
  }

  /** `( expression )`. */
  function ParseCond(ts: Toks, i: nat): (r: Parsed<Expr>)
    requires i < |ts|
    ensures Moved(r, ts, i)
  {
    if ts[i] != TLp then Fail
    else match ParseExpr(ts, i + 1)
      case Ok(e, j) => if ts[j] == TRp then Ok(e, j + 1) else Fail
      case Fail => Fail
  }

  function ParseIf(ts: Toks, i: nat): (r: Parsed<Stmt>)
    requires i < |ts| && ts[i] == TIf
    ensures Moved(r, ts, i)
    decreases |ts| - i, 1
  {
    match ParseCond(ts, i + 1)
    case Ok(c, j) =>
      (match ParseStmt(ts, j)
       case Ok(s, k) =>
         if ts[k] == TElse then
           (match ParseStmt(ts, k + 1) case Ok(s2, m) => Ok(If(c, s, Some(s2)), m) case Fail => Fail)
         else Ok(If(c, s, None), k)
       case Fail => Fail)
    case Fail => Fail
  }

  /** A variable or function declaration, after its type. */
  function ParseDecl(ts: Toks, i: nat, ty: nat): (r: Parsed<Stmt>)
    requires i < |ts| && ts[i].TType?
    ensures Moved(r, ts, i)
    decreases |ts| - i, 1
  {
    if !ts[i + 1].TIdent? then Fail
    else
      var x := ts[i + 1].name;
      if ts[i + 2] == TLp then
        (match ParseParams(ts, i + 2)
         case Ok(ps, j) => (match ParseBlock(ts, j) case Ok(body, k) => Ok(FuncDecl(x, ty, ps, body), k) case Fail =>
           Fail)
         case Fail => Fail)
      else if ts[i + 2] == TAssign(Set) then
        (match ParseExpr(ts, i + 3) case Ok(e, j) => ParseSemi(ts, j, VarDecl(x, ty, Some(e))) case Fail => Fail)
      else ParseSemi(ts, i + 2, VarDecl(x, ty, None))
  }

  function ParseBlock(ts: Toks, i: nat): (r: Parsed<seq<Stmt>>)
    requires i < |ts|
    ensures Moved(r, ts, i) && (r.Ok? ==> |r.value| < r.next - i)
    decreases |ts| - i, 1
  {
    if ts[i] != TLb then Fail else ParseBody(ts, i + 1, [])
  }

  /** The statements up to `}`, after the `body` read already. */
  function ParseBody(ts: Toks, i: nat, body: seq<Stmt>): (r: Parsed<seq<Stmt>>)
    requires i < |ts|
    ensures Moved(r, ts, i) && (r.Ok? ==> |r.value| < |body| + r.next - i)
    decreases |ts| - i, 3
  {
    if ts[i] == TRb then Ok(body, i + 1)
    else if ts[i] == TEof then Fail
    else match ParseStmt(ts, i)
      case Ok(s, j) => ParseBody(ts, j, body + [s])
      case Fail => Fail
  }

  function ParseParams(ts: Toks, i: nat): (r: Parsed<seq<Param>>)
    requires i < |ts|
    ensures Moved(r, ts, i) && (r.Ok? ==> |r.value| < MAX_ARGS)
  {
    if ts[i] != TLp then Fail
    else if ts[i + 1] == TRp then Ok([], i + 2)
    else ParseMoreParams(ts, i + 1, [])
  }

  function ParseMoreParams(ts: Toks, i: nat, ps: seq<Param>): (r: Parsed<seq<Param>>)
    requires i < |ts| && |ps| < MAX_ARGS
    ensures Moved(r, ts, i) && (r.Ok? ==> |r.value| < MAX_ARGS)
    decreases |ts| - i
  {
    match ParseParam(ts, i)
    case Ok(p, j) =>
      if |ps| + 1 >= MAX_ARGS then Fail
      else if ts[j] == TComma then ParseMoreParams(ts, j + 1, ps + [p])
      else if ts[j] == TRp then Ok(ps + [p], j + 1)
      else Fail
    case Fail => Fail
  }

  /** `type name`, with a literal default or none. */
  function ParseParam(ts: Toks, i: nat): (r: Parsed<Param>)
    requires i < |ts|
    ensures Moved(r, ts, i)
  {
    if !ts[i].TType? || !ts[i + 1].TIdent? then Fail
    else
      var x, ty := ts[i + 1].name, ts[i].code;
      if ts[i + 2] != TAssign(Set) then Ok(Param(x, ty, None), i + 2)
      else match ts[i + 3]
        case TNum(v) => Ok(Param(x, ty, Some(v)), i + 4)
        case TTrue => Ok(Param(x, ty, Some(1)), i + 4)
        case TFalse => Ok(Param(x, ty, Some(0)), i + 4)
        case _ => Fail
  }

  function ParseFor(ts: Toks, i: nat): (r: Parsed<Stmt>)
    requires i < |ts| && ts[i] == TFor
    ensures Moved(r, ts, i)
    decreases |ts| - i, 1
  {
    if ts[i + 1] != TLp then Fail
    else match ParseForInit(ts, i + 2)
      case Ok(start, j) =>
        (match ParseOptional(ts, j, TSemi)
         case Ok(test, k) =>
           (match ParseOptional(ts, k, TRp)
            case Ok(post, m) => (match ParseStmt(ts, m) case Ok(s, n) => Ok(For(start, test, post, s), n) case Fail =>
              Fail)
            case Fail => Fail)
         case Fail => Fail)
      case Fail => Fail
  }

  /** The first clause of a `for`, with its `;`. */
  function ParseForInit(ts: Toks, i: nat): (r: Parsed<ForInit>)
    requires i < |ts|
    ensures Moved(r, ts, i)
  {
    if ts[i] == TSemi then Ok(NoInit, i + 1)
    else if ts[i].TType? then
      if !ts[i + 1].TIdent? then Fail
      else
        var x, ty := ts[i + 1].name, ts[i].code;
        if ts[i + 2] == TAssign(Set) then
          (match ParseExpr(ts, i + 3)
           case Ok(e, j) => if ts[j] == TSemi then Ok(DeclInit(x, ty, Some(e)), j + 1) else Fail
           case Fail => Fail)
        else if ts[i + 2] == TSemi then Ok(DeclInit(x, ty, None), i + 3)
        else Fail
    else match ParseExpr(ts, i)
      case Ok(e, j) => if ts[j] == TSemi then Ok(ExprInit(e), j + 1) else Fail
      case Fail => Fail
  }

  /** An expression or nothing, up to and with the token `close`. */
  function ParseOptional(ts: Toks, i: nat, close: Tok): (r: Parsed<Option<Expr>>)
    requires i < |ts| && close != TEof
    ensures Moved(r, ts, i)
  {
    if ts[i] == close then Ok(None, i + 1)
    else match ParseExpr(ts, i)
      case Ok(e, j) => if ts[j] == close then Ok(Some(e), j + 1) else Fail
      case Fail => Fail
  }

  /** `noc_parse`: statements up to the end marker. */
  function ParseLine(ts: Toks, i: nat, stmts: seq<Stmt>): (r: Parsed<seq<Stmt>>)
    requires i < |ts|
    ensures r.Ok? ==> r.next == |ts| - 1 && |r.value| <= |stmts| + r.next - i
    decreases |ts| - i
  {
    if ts[i] == TEof then Ok(stmts, i)
    else match ParseStmt(ts, i)
      case Ok(s, j) => if |stmts| + 1 >= MAX_NODES then Fail else ParseLine(ts, j, stmts + [s])
      case Fail => Fail
  }
}
