/** Recursive descent over a token array with a cursor. */
module Parser {
  import opened Wrappers
  import opened Word
  import opened Ast
  import opened Grammar
  import opened StmtGrammar

  class Parser {
    const toks: Toks
    var i: nat

    constructor (toks: Toks)
      ensures this.toks == toks && i == 0
    {
      this.toks, this.i := toks, 0;
    }

    /** The cursor is on a token; it never passes the end marker. */
    predicate Valid()
      reads this
    {
      i < |toks|
    }

    /** What a method that reads a `T` promises, given what the grammar says. */
    ghost predicate Reads<T>(r: Option<T>, p: Parsed<T>)
      reads this
    {
      Valid() && (r.Some? <==> p.Ok?) && (r.Some? ==> r.value == p.value && i == p.next)
    }

    method Accept(t: Tok) returns (ok: bool)
      requires Valid() && t != TEof
      modifies `i
      ensures Valid() && ok == (toks[old(i)] == t) && i == old(i) + if ok then 1 else 0
    {
      ok := toks[i] == t;
      if ok {
        i := i + 1;
      }
    }

    method ParsePrimary() returns (r: Option<Expr>)
      requires Valid()
      modifies `i
      ensures Reads(r, Grammar.ParsePrimary(toks, old(i)))
      decreases |toks| - i, 0, 0
    {
      match toks[i]
      case TNum(v) => i := i + 1; r := Some(Lit(v));
      case TStr(s) => i := i + 1; r := Some(StrLit(s));
      case TTrue => i := i + 1; r := Some(Lit(1));
      case TFalse => i := i + 1; r := Some(Lit(0));
      case TIdent(x) => i := i + 1; r := Some(Var(x));
      case TLp =>
        i := i + 1;
        r := ParseLevel(ASSIGN);
        if r.Some? {
          var ok := Accept(TRp);
          if !ok {
            r := None;
          }
        }
      case _ => r := None;
    }

    /** Calls and `++`/`--` after a primary. */
    method ParsePostfix() returns (r: Option<Expr>)
      requires Valid()
      modifies `i
      ensures Reads(r, ParseAt(POSTFIX, toks, old(i)))
      decreases |toks| - i, 14 - POSTFIX, 0
    {
      hide Grammar.ParsePrimary, Grammar.ParseArgs, BinRest, AssignRest, OpLevel;
      ghost var start := i;
      r := ParsePrimary();
      if r.None? {
        return;
      }
      var e := r.value;
      while IsPostfix(toks[i])
        invariant start < i && Valid() && ParseAt(POSTFIX, toks, start) == PostRest(toks, i, e)
        decreases |toks| - i
      {
        if toks[i] == TLp {
          if !e.Var? {
            return None;
          }
          i := i + 1;
          var args := Some([]);
          if toks[i] != TRp {
            args := ParseArgs();
          }
          if args.None? {
            return None;
          }
          var ok := Accept(TRp);
          if !ok {
            return None;
          }
          e := Call(e.name, args.value);
        } else {
          var up := toks[i].up;
          if !e.Var? {
            return None;
          }
          i := i + 1;
          e := PostInc(e.name, up);
        }
      }
      r := Some(e);
    }

    /** At most 16 arguments: the array that holds them is never overrun. */
    method ParseArgs() returns (r: Option<seq<Expr>>)
      requires Valid()
      modifies `i
      ensures Reads(r, Grammar.ParseArgs(toks, old(i), []))
      ensures r.Some? ==> |r.value| <= MAX_ARGS
      decreases |toks| - i, 15, 0
    {
      ghost var start := i;
      var args: seq<Expr> := [];
      while true
        invariant start <= i && Valid() && |args| <= MAX_ARGS
        invariant Grammar.ParseArgs(toks, start, []) == Grammar.ParseArgs(toks, i, args)
        decreases |toks| - i
      {
        var e := ParseLevel(ASSIGN);
        if e.None? || |args| >= MAX_ARGS {
          return None;
        }
        args := args + [e.value];
        var more := Accept(TComma);
        if !more {
          return Some(args);
        }
      }
    }

    method ParseUnary() returns (r: Option<Expr>)
      requires Valid()
      modifies `i
      ensures Reads(r, ParseAt(UNARY, toks, old(i)))
      decreases |toks| - i, 14 - UNARY, 0
    {
      var t := toks[i];
      if !IsUnary(t) {
        r := ParsePostfix();
        return;
      }
      i := i + 1;
      r := ParseUnary();
      if r.None? {
        return;
      }
      if t.TInc? {
        r := if r.value.Var? then Some(PreInc(r.value, t.up)) else None;
      } else {
        r := Some(Un(UnaryOf(t), r.value));
      }
    }

    /** `parse_binop` at level `l`: operands of the next level, joined to the left. */
    method ParseBinop(l: nat) returns (r: Option<Expr>)
      requires Valid() && OROR <= l <= MULT
      modifies `i
      ensures Reads(r, ParseAt(l, toks, old(i)))
      decreases |toks| - i, 14 - l, 0
    {
      ghost var start := i;
      r := ParseLevel(l + 1);
      if r.None? {
        return;
      }
      var e := r.value;
      while TokLevel(toks[i]) == l
        invariant start < i && Valid() && ParseAt(l, toks, start) == BinRest(l, toks, i, e)
        decreases |toks| - i
      {
        var t := toks[i];
        i := i + 1;
        var b := ParseLevel(l + 1);
        if b.None? {
          return None;
        }
        e := MakeBin(t, e, b.value);
      }
      r := Some(e);
    }

    method ParseAssign() returns (r: Option<Expr>)
      requires Valid()
      modifies `i
      ensures Reads(r, ParseAt(ASSIGN, toks, old(i)))
      decreases |toks| - i, 14 - ASSIGN, 0
    {
      r := ParseLevel(OROR);
      if r.None? || !toks[i].TAssign? {
        return;
      }
      if !r.value.Var? {
        return None;
      }
      var op, x := toks[i].aop, r.value.name;
      i := i + 1;
      r := ParseAssign();
      if r.Some? {
        r := Some(Assign(op, x, r.value));
      }
    }

    /** The chain of `parse_assign`, `parse_oror`, ..., `parse_primary`. */
    method ParseLevel(l: nat) returns (r: Option<Expr>)
      requires Valid() && l <= PRIMARY
      modifies `i
      ensures Reads(r, ParseAt(l, toks, old(i)))
      decreases |toks| - i, 14 - l, 1
    {
      if l == ASSIGN {
        r := ParseAssign();
      } else if l <= MULT {
        r := ParseBinop(l);
      } else if l == UNARY {
        r := ParseUnary();
      } else if l == POSTFIX {
        r := ParsePostfix();
      } else {
        r := ParsePrimary();
      }
    }

    // ---- statements ----

    method ParseExpr() returns (r: Option<Expr>)
      requires Valid()
      modifies `i
      ensures Reads(r, StmtGrammar.ParseExpr(toks, old(i)))
    {
      r := ParseLevel(ASSIGN);
    }

    method ParseSemi(s: Stmt) returns (r: Option<Stmt>)
      requires Valid()
      modifies `i
      ensures Reads(r, StmtGrammar.ParseSemi(toks, old(i), s))
    {
      var ok := Accept(TSemi);
      r := if ok || toks[i] == TEof then Some(s) else None;
    }

    method ParseCond() returns (r: Option<Expr>)
      requires Valid()
      modifies `i
      ensures Reads(r, StmtGrammar.ParseCond(toks, old(i)))
    {
      var ok := Accept(TLp);
      if !ok {
        return None;
      }
      r := ParseExpr();
      if r.Some? {
        ok := Accept(TRp);
        if !ok {
          r := None;
        }
      }
    }

    /** Each statement of a block consumes a token, so with at most 512 tokens
        the array of 1024 holds them. */
    method ParseBlock() returns (r: Option<seq<Stmt>>)
      requires Valid()
      modifies `i
      ensures Reads(r, StmtGrammar.ParseBlock(toks, old(i)))
      ensures r.Some? && |toks| <= MAX_TOKS ==> |r.value| < MAX_NODES
      decreases |toks| - i, 1
    {
      ghost var start := i;
      var ok := Accept(TLb);
      if !ok {
        return None;
      }
      var body: seq<Stmt> := [];
      while toks[i] != TRb
        invariant start < i && Valid() && |body| < i - start
        invariant StmtGrammar.ParseBlock(toks, start) == ParseBody(toks, i, body)
        decreases |toks| - i
      {
        if toks[i] == TEof {
          return None;
        }
        var s := ParseStmt();
        if s.None? {
          return None;
        }
        body := body + [s.value];
      }
      i := i + 1;
      r := Some(body);
    }

    method ParseStmt() returns (r: Option<Stmt>)
      requires Valid()
      modifies `i
      ensures Reads(r, StmtGrammar.ParseStmt(toks, old(i)))
      decreases |toks| - i, 2
    {
      hide ParseAt, StmtGrammar.ParseIf, StmtGrammar.ParseFor, StmtGrammar.ParseDecl, ParseBody, StmtGrammar.ParseCond;
      match toks[i]
      case TType(ty) => r := ParseDecl(ty);
      case TLb =>
        var body := ParseBlock();
        r := if body.Some? then Some(Block(body.value)) else None;
      case TIf => r := ParseIf();
      case TWhile =>
        i := i + 1;
        var c := ParseCond();
        if c.None? {
          return None;
        }
        r := ParseStmt();
        if r.Some? {
          r := Some(While(c.value, r.value));
        }
      case TFor => r := ParseFor();
      case TReturn =>
        i := i + 1;
        if toks[i] == TSemi {
          i := i + 1;
          return Some(Return(None));
        }
        r := ParseClosed();
        if r.Some? {
          r := Some(Return(Some(r.value.e)));
        }
      case TEof => r := None;
      case _ => r := ParseClosed();
    }

    /** An expression and its terminator. */
    method ParseClosed() returns (r: Option<Stmt>)
      requires Valid()
      modifies `i
      ensures Reads(r, match StmtGrammar.ParseExpr(toks, old(i)) case Ok(e, j) =>
        StmtGrammar.ParseSemi(toks, j, ExprStmt(e)) case Fail => Fail)
      ensures r.Some? ==> r.value.ExprStmt?
    {
      var e := ParseExpr();
      if e.None? {
        return None;
      }
      r := ParseSemi(ExprStmt(e.value));
    }

    method ParseIf() returns (r: Option<Stmt>)
      requires Valid() && toks[i] == TIf
      modifies `i
      ensures Reads(r, StmtGrammar.ParseIf(toks, old(i)))
      decreases |toks| - i, 1
    {
      i := i + 1;
      var c := ParseCond();
      if c.None? {
        return None;
      }
      var thn := ParseStmt();
      if thn.None? {
        return None;
      }
      var more := Accept(TElse);
      if !more {
        return Some(If(c.value, thn.value, None));
      }
      var els := ParseStmt();
      r := if els.Some? then Some(If(c.value, thn.value, els)) else None;
    }

    method ParseDecl(ty: nat) returns (r: Option<Stmt>)
      requires Valid() && toks[i] == TType(ty)
      modifies `i
      ensures Reads(r, StmtGrammar.ParseDecl(toks, old(i), ty))
      decreases |toks| - i, 1
    {
      i := i + 1;
      if !toks[i].TIdent? {
        return None;
      }
      var x := toks[i].name;
      i := i + 1;
      if toks[i] == TLp {
        var ps := ParseParams();
        if ps.None? {
          return None;
        }
        var body := ParseBlock();
        r := if body.Some? then Some(FuncDecl(x, ty, ps.value, body.value)) else None;
        return;
      }
      var init: Option<Expr> := None;
      var eq := Accept(TAssign(Set));
      if eq {
        init := ParseExpr();
        if init.None? {
          return None;
        }
      }
      r := ParseSemi(VarDecl(x, ty, init));
    }

    /** Fewer than 16 parameters. */
    method ParseParams() returns (r: Option<seq<Param>>)
      requires Valid()
      modifies `i
      ensures Reads(r, StmtGrammar.ParseParams(toks, old(i)))
      ensures r.Some? ==> |r.value| < MAX_ARGS
    {
      hide StmtGrammar.ParseParam;
      ghost var start := i;
      var ok := Accept(TLp);
      if !ok {
        return None;
      }
      ok := Accept(TRp);
      if ok {
        return Some([]);
      }
      var ps: seq<Param> := [];
      while true
        invariant start < i && Valid() && |ps| < MAX_ARGS
        invariant StmtGrammar.ParseParams(toks, start) == ParseMoreParams(toks, i, ps)
        decreases |toks| - i
      {
        var p := ParseParam();
        if p.None? {
          return None;
        }
        ps := ps + [p.value];
        if |ps| >= MAX_ARGS {
          return None;
        }
        var more := Accept(TComma);
        if !more {
          ok := Accept(TRp);
          return if ok then Some(ps) else None;
        }
      }
    }

    method ParseParam() returns (r: Option<Param>)
      requires Valid()
      modifies `i
      ensures Reads(r, StmtGrammar.ParseParam(toks, old(i)))
    {
      if !toks[i].TType? {
        return None;
      }
      var ty := toks[i].code;
      i := i + 1;
      if !toks[i].TIdent? {
        return None;
      }
      var x := toks[i].name;
      i := i + 1;
      var eq := Accept(TAssign(Set));
      if !eq {
        return Some(Param(x, ty, None));
      }
      match toks[i]
      case TNum(v) => i := i + 1; r := Some(Param(x, ty, Some(v)));
      case TTrue => i := i + 1; r := Some(Param(x, ty, Some(1)));
      case TFalse => i := i + 1; r := Some(Param(x, ty, Some(0)));
      case _ => r := None;
    }

    method ParseFor() returns (r: Option<Stmt>)
      requires Valid() && toks[i] == TFor
      modifies `i
      ensures Reads(r, StmtGrammar.ParseFor(toks, old(i)))
      decreases |toks| - i, 1
    {
      i := i + 1;
      var ok := Accept(TLp);
      if !ok {
        return None;
      }
      var start := ParseForInit();
      if start.None? {
        return None;
      }
      var test := ParseOptional(TSemi);
      if test.None? {
        return None;
      }
      var post := ParseOptional(TRp);
      if post.None? {
        return None;
      }
      r := ParseStmt();
      if r.Some? {
        r := Some(For(start.value, test.value, post.value, r.value));
      }
    }

    method ParseForInit() returns (r: Option<ForInit>)
      requires Valid()
      modifies `i
      ensures Reads(r, StmtGrammar.ParseForInit(toks, old(i)))
    {
      var ok := Accept(TSemi);
      if ok {
        return Some(NoInit);
      }
      if toks[i].TType? {
        var ty := toks[i].code;
        i := i + 1;
        if !toks[i].TIdent? {
          return None;
        }
        var x := toks[i].name;
        i := i + 1;
        var init: Option<Expr> := None;
        var eq := Accept(TAssign(Set));
        if eq {
          init := ParseExpr();
          if init.None? {
            return None;
          }
        }
        r := Some(DeclInit(x, ty, init));
      } else {
        var e := ParseExpr();
        if e.None? {
          return None;
        }
        r := Some(ExprInit(e.value));
      }
      ok := Accept(TSemi);
      if !ok {
        r := None;
      }
    }

    /** An expression or nothing, and the token `close`. */
    method ParseOptional(close: Tok) returns (r: Option<Option<Expr>>)
      requires Valid() && close != TEof
      modifies `i
      ensures Reads(r, StmtGrammar.ParseOptional(toks, old(i), close))
    {
      var ok := Accept(close);
      if ok {
        return Some(None);
      }
      var e := ParseExpr();
      if e.None? {
        return None;
      }
      ok := Accept(close);
      r := if ok then Some(e) else None;
    }

    /** `noc_parse`: a whole line. Up to 512 tokens never overrun the array of
        statements, and the limit on statements is never what fails. */
    method ParseLine() returns (r: Option<seq<Stmt>>)
      requires i == 0
      modifies `i
      ensures Reads(r, StmtGrammar.ParseLine(toks, 0, []))
      ensures r.Some? ==> |r.value| < |toks|
    {
      var stmts: seq<Stmt> := [];
      while toks[i] != TEof
        invariant Valid() && |stmts| <= i
        invariant StmtGrammar.ParseLine(toks, 0, []) == StmtGrammar.ParseLine(toks, i, stmts)
        decreases |toks| - i
      {
        var s := ParseStmt();
        if s.None? {
          return None;
        }
        if |stmts| + 1 >= MAX_NODES {
          return None;
        }
        stmts := stmts + [s.value];
      }
      r := Some(stmts);
    }
  }
}
