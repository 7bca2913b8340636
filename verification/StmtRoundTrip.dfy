/** Writing statements as tokens and reading them back. */
module StmtRoundTrip {
  import opened Wrappers
  import opened Word
  import opened Ast
  import opened Grammar
  import opened RoundTrip
  import opened StmtGrammar

  /** Written out, the statement ends in an `if` that an `else` would join. */
  predicate Open(s: Stmt) {
    match s
    case If(_, thn, els) => if els.Some? then Open(els.value) else true
    case While(_, b) => Open(b)
    case For(_, _, _, b) => Open(b)
    case _ => false
  }

  predicate OptSayable(e: Option<Expr>) { e.Some? ==> Sayable(e.value) }

  /** The statements that the grammar has words for: an `if` with an `else` must
      not have an open first branch. */
  predicate StmtSayable(s: Stmt)
    decreases s, 1
  {
    match s
    case ExprStmt(e) => Sayable(e)
    case VarDecl(_, _, e) => OptSayable(e)
    case Block(body) => BodySayable(body)
    case If(c, thn, els) =>
      && Sayable(c) && StmtSayable(thn)
      && (els.Some? ==> StmtSayable(els.value) && !Open(thn))
    case While(c, b) => Sayable(c) && StmtSayable(b)
    case For(start, test, post, b) => StartSayable(start) && OptSayable(test) && OptSayable(post) && StmtSayable(b)
    case Return(e) => OptSayable(e)
    case FuncDecl(_, _, ps, body) => |ps| < MAX_ARGS && BodySayable(body)
  }

  predicate StartSayable(st: ForInit) {
    match st
    case NoInit => true
    case DeclInit(_, _, e) => OptSayable(e)
    case ExprInit(e) => Sayable(e)
  }

  predicate BodySayable(body: seq<Stmt>)
    decreases body, 0
  {
    |body| == 0 || (StmtSayable(body[0]) && BodySayable(body[1..]))
  }

  // ---- words ----

  function SayExpr(e: Expr): (r: seq<Tok>)
    ensures |r| > 0
  {
    Say(ASSIGN, e)
  }

  function SayOpt(e: Option<Expr>): seq<Tok> { if e.Some? then SayExpr(e.value) else [] }

  function SayInit(e: Option<Expr>): seq<Tok> { if e.Some? then [TAssign(Set)] + SayExpr(e.value) else [] }

  function SayCond(e: Expr): seq<Tok> { [TLp] + (SayExpr(e) + [TRp]) }

  function SayStart(st: ForInit): seq<Tok> {
    match st
    case NoInit => [TSemi]
    case DeclInit(x, ty, e) => [TType(ty), TIdent(x)] + (SayInit(e) + [TSemi])
    case ExprInit(e) => SayExpr(e) + [TSemi]
  }

  function SayParam(p: Param): seq<Tok> {
    [TType(p.ty), TIdent(p.name)] + (if p.def.Some? then [TAssign(Set), TNum(p.def.value)] else [])
  }

  function SayParams(ps: seq<Param>): seq<Tok> {
    if |ps| == 0 then [] else if |ps| == 1 then SayParam(ps[0]) else SayParam(ps[0]) + ([TComma] + SayParams(ps[1..]))
  }

  function SayStmt(s: Stmt): (r: seq<Tok>)
    ensures |r| > 0
    decreases s, 1
  {
    match s
    case ExprStmt(e) => SayExpr(e) + [TSemi]
    case VarDecl(x, ty, e) => [TType(ty), TIdent(x)] + (SayInit(e) + [TSemi])
    case Block(body) => [TLb] + SayBody(body)
    case If(c, thn, els) => [TIf] + (SayCond(c) + (SayStmt(thn) + SayElse(els)))
    case While(c, b) => [TWhile] + (SayCond(c) + SayStmt(b))
    case For(start, test, post, b) => [TFor, TLp]
      + (SayStart(start) + (SayOpt(test) + ([TSemi] + (SayOpt(post) + ([TRp] + SayStmt(b))))))
    case Return(e) => [TReturn] + (SayOpt(e) + [TSemi])
    case FuncDecl(f, ty, ps, body) =>
      ([TType(ty), TIdent(f)] + [TLp]) + (SayParams(ps) + (([TRp] + [TLb]) + SayBody(body)))
  }

  function SayElse(els: Option<Stmt>): seq<Tok>
    decreases els, 0
  {
    if els.Some? then [TElse] + SayStmt(els.value) else []
  }

  /** Statements with the closing brace. */
  function SayBody(body: seq<Stmt>): (r: seq<Tok>)
    ensures |r| > 0
    decreases body, 0
  {
    if |body| == 0 then [TRb] else SayStmt(body[0]) + SayBody(body[1..])
  }

  // ---- pieces ----

  /** What may follow an expression in a statement. */
  predicate Closes(t: Tok) { t == TSemi || t == TRp }

  lemma ReadsExpr(e: Expr, ts: Toks, i: nat, close: seq<Tok>)
    requires Sayable(e) && |close| > 0 && Closes(close[0]) && SaidAt(ts, i, SayExpr(e) + close)
    ensures var j := i + |SayExpr(e)|; j < |ts| && ts[j] == close[0] && ParseExpr(ts, i) == Ok(e, j)
    ensures Starts(ts[i])
  {
    hide ParseAt, Say, Sayable;
    SaidSplit(ts, i, SayExpr(e), close);
    FirstTok(ASSIGN, e);
    RoundTrips(e, ts, i);
  }

  lemma ReadsCond(e: Expr, ts: Toks, i: nat, rest: seq<Tok>)
    requires Sayable(e) && SaidAt(ts, i, SayCond(e) + rest)
    ensures ParseCond(ts, i) == Ok(e, i + |SayCond(e)|) && SaidAt(ts, i + |SayCond(e)|, rest)
  {
    hide ParseAt, ParseExpr, SayExpr, Sayable;
    SaidSplit(ts, i, SayCond(e), rest);
    SaidSplit(ts, i, [TLp], SayExpr(e) + [TRp]);
    ReadsExpr(e, ts, i + 1, [TRp]);
  }

  lemma ReadsOpt(e: Option<Expr>, ts: Toks, i: nat, close: Tok, rest: seq<Tok>)
    requires OptSayable(e) && Closes(close) && SaidAt(ts, i, SayOpt(e) + ([close] + rest))
    ensures ParseOptional(ts, i, close) == Ok(e, i + |SayOpt(e)| + 1) && SaidAt(ts, i + |SayOpt(e)| + 1, rest)
  {
    hide ParseAt, ParseExpr, SayExpr, Sayable;
    SaidSplit(ts, i, SayOpt(e), [close] + rest);
    SaidSplit(ts, i + |SayOpt(e)|, [close], rest);
    if e.Some? {
      ReadsExpr(e.value, ts, i, [close] + rest);
    }
  }

  lemma ReadsInit(e: Option<Expr>, ts: Toks, i: nat, rest: seq<Tok>)
    requires OptSayable(e) && SaidAt(ts, i, SayInit(e) + ([TSemi] + rest))
    ensures var j := i + |SayInit(e)|; j < |ts| && ts[j] == TSemi && SaidAt(ts, j + 1, rest)
    ensures if e.Some? then
      ts[i] == TAssign(Set) && i + 1 < |ts| && ParseExpr(ts, i + 1) == Ok(e.value, i + |SayInit(e)|) else ts[i] == TSemi
  {
    hide ParseAt, ParseExpr, SayExpr, Sayable, SaidAt;
    SaidSplit(ts, i, SayInit(e), [TSemi] + rest);
    OneSaid(ts, i + |SayInit(e)|, TSemi, rest);
    if e.Some? {
      assert SayInit(e) + ([TSemi] + rest) == [TAssign(Set)] + (SayExpr(e.value) + ([TSemi] + rest));
      OneSaid(ts, i, TAssign(Set), SayExpr(e.value) + ([TSemi] + rest));
      ReadsExpr(e.value, ts, i + 1, [TSemi] + rest);
    }
  }

  lemma OneSaid(ts: Toks, i: nat, t: Tok, rest: seq<Tok>)
    requires SaidAt(ts, i, [t] + rest)
    ensures i + 1 < |ts| && ts[i] == t && SaidAt(ts, i + 1, rest)
  {
    SaidSplit(ts, i, [t], rest);
  }

  /** The first two tokens of a declaration. */
  lemma ReadsTyped(ty: nat, x: string, ts: Toks, i: nat, rest: seq<Tok>)
    requires SaidAt(ts, i, [TType(ty), TIdent(x)] + rest)
    ensures i + 2 < |ts| && ts[i] == TType(ty) && ts[i + 1] == TIdent(x) && SaidAt(ts, i + 2, rest)
  {
    SaidSplit(ts, i, [TType(ty), TIdent(x)], rest);
    assert [TType(ty), TIdent(x)] == [TType(ty)] + [TIdent(x)];
    SaidSplit(ts, i, [TType(ty)], [TIdent(x)]);
  }

  lemma ReadsStart(st: ForInit, ts: Toks, i: nat, rest: seq<Tok>)
    requires StartSayable(st) && SaidAt(ts, i, SayStart(st) + rest)
    ensures ParseForInit(ts, i) == Ok(st, i + |SayStart(st)|) && SaidAt(ts, i + |SayStart(st)|, rest)
  {
    hide ParseAt, ParseExpr, SayExpr, Sayable;
    SaidSplit(ts, i, SayStart(st), rest);
    match st
    case NoInit => SaidSplit(ts, i, [TSemi], rest);
    case DeclInit(x, ty, e) =>
      ReadsTyped(ty, x, ts, i, SayInit(e) + [TSemi]);
      assert [TSemi] + [] == [TSemi];
      ReadsInit(e, ts, i + 2, []);
    case ExprInit(e) =>
      ReadsExpr(e, ts, i, [TSemi]);
  }

  lemma ReadsParam(p: Param, ts: Toks, i: nat, rest: seq<Tok>)
    requires SaidAt(ts, i, SayParam(p) + rest) && |rest| > 0 && rest[0] != TAssign(Set)
    ensures ParseParam(ts, i) == Ok(p, i + |SayParam(p)|) && SaidAt(ts, i + |SayParam(p)|, rest)
  {
    SaidSplit(ts, i, SayParam(p), rest);
    var def := if p.def.Some? then [TAssign(Set), TNum(p.def.value)] else [];
    ReadsTyped(p.ty, p.name, ts, i, def);
    if p.def.Some? {
      assert def == [TAssign(Set)] + [TNum(p.def.value)];
      SaidSplit(ts, i + 2, [TAssign(Set)], [TNum(p.def.value)]);
    }
  }

  lemma {:induction false} ReadsMoreParams(ps: seq<Param>, ts: Toks, i: nat, had: seq<Param>, rest: seq<Tok>)
    requires |ps| > 0 && |had| + |ps| < MAX_ARGS && SaidAt(ts, i, SayParams(ps) + ([TRp] + rest))
    ensures ParseMoreParams(ts, i, had) == Ok(had + ps, i + |SayParams(ps)| + 1)
      && SaidAt(ts, i + |SayParams(ps)| + 1, rest)
    decreases |ps|
  {
    hide ParseParam, SayParam, ParseMoreParams, SaidAt;
    var p, m := ps[0], SayParam(ps[0]);
    if |ps| == 1 {
      ReadsParam(p, ts, i, [TRp] + rest);
      SaidSplit(ts, i + |m|, [TRp], rest);
      assert had + ps == had + [p];
      MoreParamsIs(ts, i, had, p, i + |m|);
    } else {
      assert SayParams(ps) + ([TRp] + rest) == m + ([TComma] + (SayParams(ps[1..]) + ([TRp] + rest)));
      ReadsParam(p, ts, i, [TComma] + (SayParams(ps[1..]) + ([TRp] + rest)));
      SaidSplit(ts, i + |m|, [TComma], SayParams(ps[1..]) + ([TRp] + rest));
      ReadsMoreParams(ps[1..], ts, i + |m| + 1, had + [p], rest);
      assert (had + [p]) + ps[1..] == had + ps;
      MoreParamsIs(ts, i, had, p, i + |m|);
    }
  }

  lemma MoreParamsIs(ts: Toks, i: nat, had: seq<Param>, p: Param, j: nat)
    requires i < |ts| && |had| + 1 < MAX_ARGS && ParseParam(ts, i) == Ok(p, j) && j < |ts|
    ensures ts[j] == TComma ==> j + 1 < |ts| && ParseMoreParams(ts, i, had) == ParseMoreParams(ts, j + 1, had + [p])
    ensures ts[j] == TRp ==> ParseMoreParams(ts, i, had) == Ok(had + [p], j + 1)
  {
    hide ParseParam;
  }

  lemma ReadsParams(ps: seq<Param>, ts: Toks, i: nat, rest: seq<Tok>)
    requires |ps| < MAX_ARGS && SaidAt(ts, i, [TLp] + (SayParams(ps) + ([TRp] + rest)))
    ensures ParseParams(ts, i) == Ok(ps, i + |SayParams(ps)| + 2) && SaidAt(ts, i + |SayParams(ps)| + 2, rest)
  {
    hide SaidAt, ParseMoreParams, ParseParam, SayParam;
    SaidSplit(ts, i, [TLp], SayParams(ps) + ([TRp] + rest));
    if |ps| == 0 {
      assert SayParams(ps) + ([TRp] + rest) == [TRp] + rest;
      SaidSplit(ts, i + 1, [TRp], rest);
    } else {
      ReadsMoreParams(ps, ts, i + 1, [], rest);
      assert [] + ps == ps;
      ParamsStart(ps);
      HeadTok(ts, i + 1, SayParams(ps) + ([TRp] + rest));
    }
  }

  lemma ParamsStart(ps: seq<Param>)
    requires |ps| > 0
    ensures |SayParams(ps)| > 0 && SayParams(ps)[0].TType?
  {
  }

  /** How a statement may start. */
  lemma StmtStart(s: Stmt)
    ensures var t := SayStmt(s)[0]; t != TElse && t != TRb && t != TEof
    ensures s.ExprStmt? ==> Starts(SayStmt(s)[0])
  {
    if s.ExprStmt? {
      FirstTok(ASSIGN, s.e);
    }
  }

  // ---- statements ----

  /** Every statement the grammar can say parses back to itself, unless it ends in
      an open `if` and an `else` follows. */
  lemma {:induction false} StmtRoundTrips(s: Stmt, ts: Toks, i: nat)
    requires StmtSayable(s) && SaidAt(ts, i, SayStmt(s)) && (Open(s) ==> ts[i + |SayStmt(s)|] != TElse)
    ensures ParseStmt(ts, i) == Ok(s, i + |SayStmt(s)|)
    decreases s, 2
  {
    hide ParseAt, ParseExpr, SayExpr, Sayable, ParseBody, SayBody, BodySayable, SayStmt, ParseStmt, StmtSayable, Open,
      ParseIf, ParseFor, ParseDecl;
    match s
    case ExprStmt(e) => ReadsExprStmt(s, ts, i);
    case VarDecl(_, _, _) => ReadsVarDecl(s, ts, i);
    case Block(_) => ReadsBlock(s, ts, i);
    case If(_, _, _) => ReadsIf(s, ts, i);
    case While(_, _) => ReadsWhile(s, ts, i);
    case For(_, _, _, _) => ReadsFor(s, ts, i);
    case Return(_) => ReadsReturn(s, ts, i);
    case FuncDecl(_, _, _, _) => ReadsFuncDecl(s, ts, i);
  }

  lemma ReadsExprStmt(s: Stmt, ts: Toks, i: nat)
    requires s.ExprStmt? && StmtSayable(s) && SaidAt(ts, i, SayStmt(s))
    ensures ParseStmt(ts, i) == Ok(s, i + |SayStmt(s)|)
  {
    hide ParseAt, ParseExpr, SayExpr, Sayable;
    ReadsExpr(s.e, ts, i, [TSemi]);
  }

  lemma ReadsVarDecl(s: Stmt, ts: Toks, i: nat)
    requires s.VarDecl? && StmtSayable(s) && SaidAt(ts, i, SayStmt(s))
    ensures ParseStmt(ts, i) == Ok(s, i + |SayStmt(s)|)
  {
    hide ParseAt, ParseExpr, SayExpr, Sayable;
    ReadsTyped(s.ty, s.name, ts, i, SayInit(s.init) + [TSemi]);
    assert [TSemi] + [] == [TSemi];
    ReadsInit(s.init, ts, i + 2, []);
  }

  lemma ReadsReturn(s: Stmt, ts: Toks, i: nat)
    requires s.Return? && StmtSayable(s) && SaidAt(ts, i, SayStmt(s))
    ensures ParseStmt(ts, i) == Ok(s, i + |SayStmt(s)|)
  {
    hide ParseAt, ParseExpr, SayExpr, Sayable;
    SaidSplit(ts, i, [TReturn], SayOpt(s.value) + [TSemi]);
    if s.value.Some? {
      ReadsExpr(s.value.value, ts, i + 1, [TSemi]);
    } else {
      assert SayOpt(s.value) + [TSemi] == [TSemi];
      HeadTok(ts, i + 1, [TSemi]);
    }
  }

  lemma {:induction false} ReadsBlock(s: Stmt, ts: Toks, i: nat)
    requires s.Block? && StmtSayable(s) && SaidAt(ts, i, SayStmt(s))
    ensures ParseStmt(ts, i) == Ok(s, i + |SayStmt(s)|)
    decreases s, 1
  {
    hide ParseBody, SayBody, BodySayable;
    SaidSplit(ts, i, [TLb], SayBody(s.body));
    ReadsBody(s.body, ts, i + 1, []);
    assert [] + s.body == s.body;
  }

  lemma {:induction false} ReadsIf(s: Stmt, ts: Toks, i: nat)
    requires s.If? && StmtSayable(s) && SaidAt(ts, i, SayStmt(s)) && (Open(s) ==> ts[i + |SayStmt(s)|] != TElse)
    ensures ParseStmt(ts, i) == Ok(s, i + |SayStmt(s)|)
    decreases s, 1
  {
    hide *;
    OpenIf(s);
    IfParts(s);
    var tail := SayElse(s.els);
    var j := i + 1 + |SayCond(s.cond)|;
    var k := j + |SayStmt(s.thn)|;
    SaidSplit(ts, i, [TIf], SayCond(s.cond) + (SayStmt(s.thn) + tail));
    ReadsCond(s.cond, ts, i + 1, SayStmt(s.thn) + tail);
    SaidSplit(ts, j, SayStmt(s.thn), tail);
    if s.els.Some? {
      SaidSplit(ts, k, [TElse], SayStmt(s.els.value));
      StmtRoundTrips(s.thn, ts, j);
      StmtRoundTrips(s.els.value, ts, k + 1);
    } else {
      StmtRoundTrips(s.thn, ts, j);
    }
    IfIs(ts, i, s.cond, j, s.thn, k);
  }

  lemma OpenIf(s: Stmt)
    requires s.If?
    ensures Open(s) == if s.els.Some? then Open(s.els.value) else true
  {
  }

  lemma IfIs(ts: Toks, i: nat, c: Expr, j: nat, s: Stmt, k: nat)
    requires i + 1 < |ts| && ts[i] == TIf && ParseCond(ts, i + 1) == Ok(c, j) && j < |ts|
      && ParseStmt(ts, j) == Ok(s, k) && k < |ts|
    ensures ts[k] == TElse ==> k + 1 < |ts|
    ensures ts[k] == TElse && ParseStmt(ts, k + 1).Ok? ==>
      var r := ParseStmt(ts, k + 1); ParseStmt(ts, i) == Ok(If(c, s, Some(r.value)), r.next)
    ensures ts[k] != TElse ==> ParseStmt(ts, i) == Ok(If(c, s, None), k)
  {
    hide ParseCond;
  }

  lemma IfParts(s: Stmt)
    requires s.If? && StmtSayable(s)
    ensures Sayable(s.cond) && StmtSayable(s.thn) && (s.els.Some? ==> StmtSayable(s.els.value) && !Open(s.thn))
    ensures SayStmt(s) == [TIf] + (SayCond(s.cond) + (SayStmt(s.thn) + SayElse(s.els)))
    ensures SayElse(s.els) == if s.els.Some? then [TElse] + SayStmt(s.els.value) else []
  {
  }

  lemma {:induction false} ReadsWhile(s: Stmt, ts: Toks, i: nat)
    requires s.While? && StmtSayable(s) && SaidAt(ts, i, SayStmt(s)) && (Open(s) ==> ts[i + |SayStmt(s)|] != TElse)
    ensures ParseStmt(ts, i) == Ok(s, i + |SayStmt(s)|)
    decreases s, 1
  {
    hide ParseCond, SayCond, Sayable, ParseExpr, ParseAt, ParseStmt, SaidAt;
    SaidSplit(ts, i, [TWhile], SayCond(s.cond) + SayStmt(s.loop));
    ReadsCond(s.cond, ts, i + 1, SayStmt(s.loop));
    var j := i + 1 + |SayCond(s.cond)|;
    StmtRoundTrips(s.loop, ts, j);
    WhileIs(ts, i, s.cond, j, s.loop, j + |SayStmt(s.loop)|);
  }

  lemma WhileIs(ts: Toks, i: nat, c: Expr, j: nat, s: Stmt, k: nat)
    requires i + 1 < |ts| && ts[i] == TWhile && ParseCond(ts, i + 1) == Ok(c, j) && j < |ts|
      && ParseStmt(ts, j) == Ok(s, k)
    ensures ParseStmt(ts, i) == Ok(While(c, s), k)
  {
    hide ParseCond;
  }

  lemma {:induction false} ReadsFor(s: Stmt, ts: Toks, i: nat)
    requires s.For? && StmtSayable(s) && SaidAt(ts, i, SayStmt(s)) && (Open(s) ==> ts[i + |SayStmt(s)|] != TElse)
    ensures ParseStmt(ts, i) == Ok(s, i + |SayStmt(s)|)
    decreases s, 1
  {
    hide *;
    ForParts(s);
    var w3 := [TRp] + SayStmt(s.loop);
    var w2 := SayOpt(s.post) + w3;
    var w1 := SayOpt(s.test) + ([TSemi] + w2);
    var j := i + 2 + |SayStart(s.start)|;
    var k := j + |SayOpt(s.test)| + 1;
    SaidSplit(ts, i, [TFor, TLp], SayStart(s.start) + w1);
    assert [TFor, TLp] == [TFor] + [TLp];
    SaidSplit(ts, i, [TFor], [TLp]);
    ReadsStart(s.start, ts, i + 2, w1);
    ClosesBoth();
    ReadsOpt(s.test, ts, j, TSemi, w2);
    ReadsOpt(s.post, ts, k, TRp, SayStmt(s.loop));
    var m := k + |SayOpt(s.post)| + 1;
    StmtRoundTrips(s.loop, ts, m);
    ForIs(ts, i, s.start, j, s.test, k, s.post, m, s.loop, m + |SayStmt(s.loop)|);
  }

  lemma ClosesBoth()
    ensures Closes(TSemi) && Closes(TRp)
  {
  }

  lemma ForParts(s: Stmt)
    requires s.For? && StmtSayable(s)
    ensures StartSayable(s.start) && OptSayable(s.test) && OptSayable(s.post) && StmtSayable(s.loop)
      && Open(s) == Open(s.loop)
    ensures SayStmt(s) ==
      [TFor, TLp] + (SayStart(s.start) + (SayOpt(s.test) + ([TSemi] + (SayOpt(s.post) + ([TRp] + SayStmt(s.loop))))))
  {
  }

  lemma ForIs(ts: Toks, i: nat, start: ForInit, j: nat, test: Option<Expr>, k: nat, post: Option<Expr>, m: nat, s: Stmt,
      n: nat)
    requires i + 2 < |ts| && ts[i] == TFor && ts[i + 1] == TLp && ParseForInit(ts, i + 2) == Ok(start, j)
    requires j < |ts| && ParseOptional(ts, j, TSemi) == Ok(test, k) && k < |ts|
      && ParseOptional(ts, k, TRp) == Ok(post, m)
    requires m < |ts| && ParseStmt(ts, m) == Ok(s, n)
    ensures ParseStmt(ts, i) == Ok(For(start, test, post, s), n)
  {
    hide ParseForInit, ParseOptional;
  }

  lemma {:induction false} ReadsFuncDecl(s: Stmt, ts: Toks, i: nat)
    requires s.FuncDecl? && StmtSayable(s) && SaidAt(ts, i, SayStmt(s))
    ensures ParseStmt(ts, i) == Ok(s, i + |SayStmt(s)|)
    decreases s, 1
  {
    hide *;
    FuncParts(s);
    var w := [TLb] + SayBody(s.body);
    ReadsTyped(s.ret, s.name, ts, i, [TLp] + (SayParams(s.params) + ([TRp] + w)));
    SaidSplit(ts, i + 2, [TLp], SayParams(s.params) + ([TRp] + w));
    ReadsParams(s.params, ts, i + 2, w);
    var j := i + 2 + |SayParams(s.params)| + 2;
    SaidSplit(ts, j, [TLb], SayBody(s.body));
    ReadsBody(s.body, ts, j + 1, []);
    assert [] + s.body == s.body;
    FuncIs(ts, i, s.ret, s.name, s.params, j, s.body, j + 1 + |SayBody(s.body)|);
  }

  lemma FuncParts(s: Stmt)
    requires s.FuncDecl? && StmtSayable(s)
    ensures |s.params| < MAX_ARGS && BodySayable(s.body)
    ensures SayStmt(s) ==
      [TType(s.ret), TIdent(s.name)] + ([TLp] + (SayParams(s.params) + ([TRp] + ([TLb] + SayBody(s.body)))))
  {
    hide SayBody, SayParams, BodySayable;
    Regroup([TType(s.ret), TIdent(s.name)], [TLp], SayParams(s.params), [TRp], [TLb], SayBody(s.body));
  }

  lemma Regroup(a: seq<Tok>, b: seq<Tok>, c: seq<Tok>, d: seq<Tok>, e: seq<Tok>, f: seq<Tok>)
    ensures (a + b) + (c + ((d + e) + f)) == a + (b + (c + (d + (e + f))))
  {
  }

  lemma FuncIs(ts: Toks, i: nat, ty: nat, f: string, ps: seq<Param>, j: nat, body: seq<Stmt>, k: nat)
    requires i + 2 < |ts| && ts[i] == TType(ty) && ts[i + 1] == TIdent(f) && ts[i + 2] == TLp
    requires ParseParams(ts, i + 2) == Ok(ps, j) && j + 1 < |ts| && ts[j] == TLb
      && ParseBody(ts, j + 1, []) == Ok(body, k)
    ensures ParseStmt(ts, i) == Ok(FuncDecl(f, ty, ps, body), k)
  {
    hide ParseParams, ParseBody;
    assert ParseBlock(ts, j) == Ok(body, k);
    assert ParseDecl(ts, i, ty) == Ok(FuncDecl(f, ty, ps, body), k);
  }

  lemma {:induction false} ReadsBody(body: seq<Stmt>, ts: Toks, i: nat, had: seq<Stmt>)
    requires BodySayable(body) && SaidAt(ts, i, SayBody(body))
    ensures ParseBody(ts, i, had) == Ok(had + body, i + |SayBody(body)|)
    decreases body, 0
  {
    hide ParseStmt, SayStmt, StmtSayable, Open, SaidAt;
    if |body| == 0 {
      HeadTok(ts, i, [TRb]);
      assert had + body == had;
    } else {
      var s, rest := body[0], body[1..];
      var j := i + |SayStmt(s)|;
      SaidSplit(ts, i, SayStmt(s), SayBody(rest));
      StmtStart(s);
      BodyStart(rest);
      StmtRoundTrips(s, ts, i);
      ReadsBody(rest, ts, j, had + [s]);
      assert (had + [s]) + rest == had + body;
    }
  }

  lemma BodyStart(body: seq<Stmt>)
    ensures SayBody(body)[0] != TElse
  {
    hide SayStmt;
    if |body| > 0 { StmtStart(body[0]); }
  }

  // ---- lines ----

  function SayLine(stmts: seq<Stmt>): seq<Tok> {
    if |stmts| == 0 then [] else SayStmt(stmts[0]) + SayLine(stmts[1..])
  }

  /** A line of statements, written out, parses back to the same statements. */
  lemma {:induction false} LineRoundTrips(stmts: seq<Stmt>, ts: Toks, i: nat, had: seq<Stmt>)
    requires BodySayable(stmts) && SaidAt(ts, i, SayLine(stmts)) && i + |SayLine(stmts)| == |ts| - 1
    requires |had| + |stmts| < MAX_NODES
    ensures ParseLine(ts, i, had) == Ok(had + stmts, |ts| - 1)
    decreases |stmts|
  {
    hide ParseStmt, SayStmt, StmtSayable, Open, SaidAt;
    if |stmts| == 0 {
      assert had + stmts == had;
    } else {
      var s, rest := stmts[0], stmts[1..];
      var j := i + |SayStmt(s)|;
      SaidSplit(ts, i, SayStmt(s), SayLine(rest));
      StmtStart(s);
      if |rest| > 0 { LineStart(rest); }
      StmtRoundTrips(s, ts, i);
      LineRoundTrips(rest, ts, j, had + [s]);
      assert (had + [s]) + rest == had + stmts;
    }
  }

  lemma LineStart(stmts: seq<Stmt>)
    requires |stmts| > 0
    ensures |SayLine(stmts)| > 0 && SayLine(stmts)[0] != TElse
  {
    hide SayStmt;
    StmtStart(stmts[0]);
  }

  // ---- only sayable trees come out of the parser ----

  lemma ParsedStart(ts: Toks, i: nat)
    requires i < |ts|
    ensures ParseForInit(ts, i).Ok? ==> StartSayable(ParseForInit(ts, i).value)
    ensures ParseCond(ts, i).Ok? ==> Sayable(ParseCond(ts, i).value)
    ensures ParseOptional(ts, i, TSemi).Ok? ==> OptSayable(ParseOptional(ts, i, TSemi).value)
    ensures ParseOptional(ts, i, TRp).Ok? ==> OptSayable(ParseOptional(ts, i, TRp).value)
  {
    hide ParseAt, Sayable;
    forall k | i <= k < |ts| ensures ParseExpr(ts, k).Ok? ==> Sayable(ParseExpr(ts, k).value) {
      ParsedSayable(ASSIGN, ts, k);
    }
  }

  /** The parser only produces statements the grammar has words for; an open `if`
      is never followed by an `else`. */
  lemma {:induction false} ParsedStmtSayable(ts: Toks, i: nat)
    requires i < |ts|
    ensures var r := ParseStmt(ts, i); r.Ok? ==> StmtSayable(r.value) && (Open(r.value) ==> ts[r.next] != TElse)
    decreases |ts| - i, 2
  {
    hide ParseAt, Sayable, ParseFor, ParseIf, ParseDecl, ParseBody, ParseCond;
    match ts[i]
    case TType(ty) => ParsedDecl(ts, i, ty);
    case TLb => ParsedBody(ts, i + 1, []);
    case TIf => ParsedIf(ts, i);
    case TWhile =>
      ParsedStart(ts, i + 1);
      if ParseCond(ts, i + 1).Ok? { ParsedStmtSayable(ts, ParseCond(ts, i + 1).next); }
    case TFor => ParsedFor(ts, i);
    case TReturn => ParsedSayable(ASSIGN, ts, i + 1);
    case _ => ParsedSayable(ASSIGN, ts, i);
  }

  lemma {:induction false} ParsedIf(ts: Toks, i: nat)
    requires i < |ts| && ts[i] == TIf
    ensures var r := ParseIf(ts, i); r.Ok? ==> StmtSayable(r.value) && (Open(r.value) ==> ts[r.next] != TElse)
    decreases |ts| - i, 1
  {
    hide ParseCond, ParseStmt, Sayable;
    ParsedStart(ts, i + 1);
    var c := ParseCond(ts, i + 1);
    if c.Ok? {
      ParsedStmtSayable(ts, c.next);
      var s := ParseStmt(ts, c.next);
      if s.Ok? && ts[s.next] == TElse {
        ParsedStmtSayable(ts, s.next + 1);
      }
    }
  }

  lemma {:induction false} ParsedFor(ts: Toks, i: nat)
    requires i < |ts| && ts[i] == TFor
    ensures var r := ParseFor(ts, i); r.Ok? ==> StmtSayable(r.value) && (Open(r.value) ==> ts[r.next] != TElse)
    decreases |ts| - i, 1
  {
    hide ParseForInit, ParseOptional, ParseStmt, StartSayable, OptSayable;
    if ts[i + 1] == TLp {
      ParsedStart(ts, i + 2);
      var a := ParseForInit(ts, i + 2);
      if a.Ok? {
        ParsedStart(ts, a.next);
        var b := ParseOptional(ts, a.next, TSemi);
        if b.Ok? {
          ParsedStart(ts, b.next);
          var c := ParseOptional(ts, b.next, TRp);
          if c.Ok? { ParsedStmtSayable(ts, c.next); }
        }
      }
    }
  }

  lemma {:induction false} ParsedDecl(ts: Toks, i: nat, ty: nat)
    requires i < |ts| && ts[i].TType?
    ensures var r := ParseDecl(ts, i, ty); r.Ok? ==> StmtSayable(r.value) && !Open(r.value)
    decreases |ts| - i, 1
  {
    hide ParseAt, Sayable, ParseParams, ParseBody;
    if ts[i + 1].TIdent? {
      if ts[i + 2] == TLp {
        var a := ParseParams(ts, i + 2);
        if a.Ok? && ts[a.next] == TLb { ParsedBody(ts, a.next + 1, []); }
      } else if ts[i + 2] == TAssign(Set) {
        ParsedSayable(ASSIGN, ts, i + 3);
      }
    }
  }

  lemma {:induction false} ParsedBody(ts: Toks, i: nat, body: seq<Stmt>)
    requires i < |ts| && BodySayable(body)
    ensures var r := ParseBody(ts, i, body); r.Ok? ==> BodySayable(r.value)
    decreases |ts| - i, 3
  {
    hide ParseStmt, StmtSayable;
    if ts[i] != TRb && ts[i] != TEof {
      ParsedStmtSayable(ts, i);
      var s := ParseStmt(ts, i);
      if s.Ok? {
        BodySayableSnoc(body, s.value);
        ParsedBody(ts, s.next, body + [s.value]);
      }
    }
  }

  lemma {:induction false} BodySayableSnoc(body: seq<Stmt>, s: Stmt)
    requires BodySayable(body) && StmtSayable(s)
    ensures BodySayable(body + [s])
    decreases |body|
  {
    hide StmtSayable;
    if |body| > 0 {
      BodySayableSnoc(body[1..], s);
      assert (body + [s])[1..] == body[1..] + [s];
    }
  }
}
