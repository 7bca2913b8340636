/** Writing an expression with the parentheses that precedence and
    associativity require, and reading it back. */
module RoundTrip {
  import opened Word
  import opened Ast
  import opened Grammar

  function Level(e: Expr): (l: nat)
    ensures l <= PRIMARY
  {
    match e
    case Lit(_) => PRIMARY case StrLit(_) => PRIMARY case Var(_) => PRIMARY
    case Call(_, _) => POSTFIX case PostInc(_, _) => POSTFIX
    case Un(_, _) => UNARY case PreInc(_, _) => UNARY
    case Bin(op, _, _) => OpLevel(op)
    case AndAnd(_, _) => 2
    case OrOr(_, _) => OROR
    case Assign(_, _, _) => ASSIGN
  }

  /** The trees that the grammar has words for. */
  predicate Sayable(e: Expr)
    decreases e, 1
  {
    match e
    case Call(_, args) => |args| <= MAX_ARGS && AllSayable(args)
    case Bin(_, a, b) => Sayable(a) && Sayable(b)
    case AndAnd(a, b) => Sayable(a) && Sayable(b)
    case OrOr(a, b) => Sayable(a) && Sayable(b)
    case Un(_, a) => Sayable(a)
    case PreInc(a, _) => a.Var?
    case Assign(_, _, a) => Sayable(a)
    case _ => true
  }

  predicate AllSayable(es: seq<Expr>)
    decreases es, 0
  {
    |es| == 0 || (Sayable(es[0]) && AllSayable(es[1..]))
  }

  function UnaryTok(op: UnOp): Tok {
    match op
    case Neg => TOp(Sub)
    case Not => TBang
    case BNot => TTilde
  }

  /** The tokens of `e` where an expression of level `l` is wanted. */
  function Say(l: nat, e: Expr): (r: seq<Tok>)
    ensures |r| > 0
    decreases e, 2
  {
    if l <= Level(e) then Words(e) else [TLp] + Words(e) + [TRp]
  }

  function Words(e: Expr): (r: seq<Tok>)
    ensures |r| > 0
    decreases e, 1
  {
    match e
    case Lit(v) => [TNum(v)]
    case StrLit(s) => [TStr(s)]
    case Var(x) => [TIdent(x)]
    case Call(f, args) => [TIdent(f), TLp] + SayArgs(args) + [TRp]
    case PostInc(x, up) => [TIdent(x), TInc(up)]
    case Un(op, a) => [UnaryTok(op)] + Say(UNARY, a)
    case PreInc(a, up) => [TInc(up)] + Say(UNARY, a)
    case Bin(op, a, b) => Say(OpLevel(op), a) + ([TOp(op)] + Say(OpLevel(op) + 1, b))
    case AndAnd(a, b) => Say(2, a) + ([TAndAnd] + Say(3, b))
    case OrOr(a, b) => Say(OROR, a) + ([TOrOr] + Say(2, b))
    case Assign(op, x, a) => [TIdent(x), TAssign(op)] + Say(ASSIGN, a)
  }

  function SayArgs(es: seq<Expr>): seq<Tok>
    decreases es, 0
  {
    if |es| == 0 then []
    else if |es| == 1 then Say(ASSIGN, es[0])
    else Say(ASSIGN, es[0]) + [TComma] + SayArgs(es[1..])
  }

  // ---- where a reading stops ----

  /** Token `t` does not go on with an expression of level `l`. */
  predicate Stops(l: nat, t: Tok) {
    && (l <= POSTFIX ==> !IsPostfix(t))
    && (TokLevel(t) > 0 ==> TokLevel(t) < l)
    && (l == ASSIGN ==> !t.TAssign?)
  }

  /** What level `l` does with an operand `e` read up to token `j`. */
  function Rest(l: nat, ts: Toks, j: nat, e: Expr): Parsed<Expr>
    requires l <= PRIMARY && j < |ts|
  {
    if l == ASSIGN then AssignRest(ts, j, e)
    else if l <= MULT then BinRest(l, ts, j, e)
    else if l == POSTFIX then PostRest(ts, j, e)
    else Ok(e, j)
  }

  lemma RestStops(l: nat, ts: Toks, j: nat, e: Expr)
    requires l <= PRIMARY && j < |ts| && Stops(l, ts[j])
    ensures Rest(l, ts, j, e) == Ok(e, j)
  {
  }

  /** Reading at a looser level, of what a tighter level reads as `e`. */
  lemma {:induction false} Loosen(m: nat, l: nat, ts: Toks, i: nat, j: nat, e: Expr)
    requires l < m <= PRIMARY && i < |ts| && j < |ts| && ParseAt(m, ts, i) == Ok(e, j) && Stops(l + 1, ts[j])
    requires m > UNARY ==> !IsUnary(ts[i])
    ensures ParseAt(l, ts, i) == Rest(l, ts, j, e)
    decreases m - l
  {
    hide ParsePrimary, PostRest, ParseArgs, OpLevel, TokLevel;
    if l + 1 < m {
      assert Stops(l + 2, ts[j]);
      Loosen(m, l + 1, ts, i, j, e);
      RestStops(l + 1, ts, j, e);
    }
  }

  predicate SaidAt(ts: Toks, i: nat, words: seq<Tok>) {
    i + |words| < |ts| && ts[i..i + |words|] == words
  }

  lemma SaidSplit(ts: Toks, i: nat, a: seq<Tok>, b: seq<Tok>)
    requires SaidAt(ts, i, a + b)
    ensures SaidAt(ts, i, a) && SaidAt(ts, i + |a|, b) && i + |a| + |b| < |ts|
    ensures |a| > 0 ==> ts[i] == a[0]
    ensures |b| > 0 ==> ts[i + |a|] == b[0]
  {
    var w := ts[i..i + |a + b|];
    assert w == a + b;
    assert ts[i..i + |a|] == w[..|a|];
    assert ts[i + |a|..i + |a| + |b|] == w[|a|..];
    assert |a| > 0 ==> ts[i] == w[0];
    assert |b| > 0 ==> ts[i + |a|] == w[|a|];
  }

  /** An expression starts with a token that starts expressions. */
  predicate Starts(t: Tok) {
    t.TNum? || t.TStr? || t.TIdent? || t == TLp || IsUnary(t)
  }

  lemma {:induction false} FirstTok(l: nat, e: Expr)
    ensures Starts(Say(l, e)[0]) && Starts(Words(e)[0])
    ensures Level(e) > UNARY || l > UNARY ==> !IsUnary(Say(l, e)[0])
    decreases e
  {
    match e
    case Bin(op, a, _) => FirstTok(OpLevel(op), a);
    case AndAnd(a, _) => FirstTok(2, a);
    case OrOr(a, _) => FirstTok(OROR, a);
    case _ =>
  }

  // ---- reading what was written ----

  /** After level `l` only this may follow for the reading to be that of the words alone. */
  predicate Follows(l: nat, t: Tok) { Stops(if l == ASSIGN then 0 else l + 1, t) }

  /** `ParseAt` on the words of `e` at its own level. */
  ghost predicate ReadsAs(l: nat, ts: Toks, i: nat, j: nat, e: Expr)
    requires l <= PRIMARY && i < |ts| && j < |ts|
  {
    ParseAt(l, ts, i) == Rest(l, ts, j, e)
  }

  lemma {:induction false} Reads(l: nat, e: Expr, ts: Toks, i: nat)
    requires l <= PRIMARY && Sayable(e) && SaidAt(ts, i, Say(l, e)) && Follows(l, ts[i + |Say(l, e)|])
    ensures ReadsAs(l, ts, i, i + |Say(l, e)|, e)
    decreases e, 3
  {
    hide ParseAt, Words, Sayable, Rest;
    var m, j := Level(e), i + |Say(l, e)|;
    FirstTok(l, e);
    HeadTok(ts, i, Say(l, e));
    if l <= m {
      FollowsMore(l, m, ts[j]);
      ReadsOwn(e, ts, i);
      if l < m {
        RestStops(m, ts, j, e);
        Loosen(m, l, ts, i, j, e);
      }
    } else {
      ReadsParens(e, ts, i);
      if l < PRIMARY {
        Loosen(PRIMARY, l, ts, i, j, e);
      } else {
        RestStops(l, ts, j, e);
      }
    }
  }

  lemma HeadTok(ts: Toks, i: nat, words: seq<Tok>)
    requires SaidAt(ts, i, words) && |words| > 0
    ensures ts[i] == words[0]
  {
    assert ts[i..i + |words|][0] == ts[i];
  }

  lemma FollowsMore(l: nat, m: nat, t: Tok)
    requires Follows(l, t) && l <= m
    ensures Follows(m, t) && (l < m ==> Stops(m, t) && Stops(l + 1, t))
  {
  }

  /** Parentheses make a primary of anything. */
  lemma {:induction false} ReadsParens(e: Expr, ts: Toks, i: nat)
    requires Sayable(e) && SaidAt(ts, i, [TLp] + Words(e) + [TRp])
    ensures ParseAt(PRIMARY, ts, i) == Ok(e, i + |Words(e)| + 2)
    decreases e, 2
  {
    hide ParseAt, Words, Sayable, Rest;
    var k, m := i + 1 + |Words(e)|, Level(e);
    SaidSplit(ts, i, [TLp] + Words(e), [TRp]);
    SaidSplit(ts, i, [TLp], Words(e));
    ReadsOwn(e, ts, i + 1);
    RestStops(m, ts, k, e);
    if m > ASSIGN {
      FirstTok(ASSIGN, e);
      HeadTok(ts, i + 1, Words(e));
      Loosen(m, ASSIGN, ts, i + 1, k, e);
      RestStops(ASSIGN, ts, k, e);
    }
    ParenIs(ts, i, e, k);
  }

  lemma ParenIs(ts: Toks, i: nat, e: Expr, k: nat)
    requires i + 1 < |ts| && k < |ts| && ts[i] == TLp && ParseAt(ASSIGN, ts, i + 1) == Ok(e, k) && ts[k] == TRp
    ensures ParseAt(PRIMARY, ts, i) == Ok(e, k + 1)
  {
  }

  lemma {:induction false} ReadsOwn(e: Expr, ts: Toks, i: nat)
    requires Sayable(e) && SaidAt(ts, i, Words(e)) && Follows(Level(e), ts[i + |Words(e)|])
    ensures ReadsAs(Level(e), ts, i, i + |Words(e)|, e)
    decreases e, 1
  {
    hide ParseAt, Say, SayArgs, Rest, Stops;
    match e
    case Lit(_) => ReadsWord(e, ts, i);
    case StrLit(_) => ReadsWord(e, ts, i);
    case Var(_) => ReadsWord(e, ts, i);
    case Call(_, _) => ReadsCall(e, ts, i);
    case PostInc(x, up) => ReadsPostInc(e, ts, i);
    case Un(op, a) => ReadsUn(e, ts, i);
    case PreInc(a, up) => ReadsPreInc(e, ts, i);
    case Bin(op, a, b) => ReadsBin(TOp(op), a, b, ts, i);
    case AndAnd(a, b) => ReadsBin(TAndAnd, a, b, ts, i);
    case OrOr(a, b) => ReadsBin(TOrOr, a, b, ts, i);
    case Assign(_, _, _) => ReadsAssign(e, ts, i);
  }

  lemma ReadsWord(e: Expr, ts: Toks, i: nat)
    requires (e.Lit? || e.StrLit? || e.Var?) && SaidAt(ts, i, Words(e))
    ensures ReadsAs(PRIMARY, ts, i, i + 1, e)
  {
    HeadTok(ts, i, Words(e));
  }

  lemma {:induction false} ReadsBin(t: Tok, a: Expr, b: Expr, ts: Toks, i: nat)
    requires TokLevel(t) > 0 && Sayable(a) && Sayable(b)
    requires SaidAt(ts, i, Say(TokLevel(t), a) + ([t] + Say(TokLevel(t) + 1, b)))
    requires Follows(TokLevel(t), ts[i + |Say(TokLevel(t), a)| + 1 + |Say(TokLevel(t) + 1, b)|])
    ensures ReadsAs(TokLevel(t), ts, i, i + |Say(TokLevel(t), a)| + 1 + |Say(TokLevel(t) + 1, b)|, MakeBin(t, a, b))
    decreases MakeBin(t, a, b), 0
  {
    hide ParseAt, Say, Sayable, PostRest, BinRest, AssignRest, OpLevel, SaidAt;
    var l := TokLevel(t);
    var k := i + |Say(l, a)|;
    var j := k + 1 + |Say(l + 1, b)|;
    SaidSplit(ts, i, Say(l, a), [t] + Say(l + 1, b));
    SaidSplit(ts, k, [t], Say(l + 1, b));
    Reads(l, a, ts, i);
    Reads(l + 1, b, ts, k + 1);
    RestStops(l + 1, ts, j, b);
    BinIs(l, ts, i, t, a, b, k, j);
  }

  lemma BinIs(l: nat, ts: Toks, i: nat, t: Tok, a: Expr, b: Expr, k: nat, j: nat)
    requires OROR <= l <= MULT && TokLevel(t) == l && i < |ts| && k + 1 < |ts| && j < |ts| && ts[k] == t
    requires ParseAt(l, ts, i) == BinRest(l, ts, k, a) && ParseAt(l + 1, ts, k + 1) == Ok(b, j)
    ensures ParseAt(l, ts, i) == BinRest(l, ts, j, MakeBin(t, a, b))
  {
    hide ParseAt;
  }

  lemma {:induction false} ReadsUn(e: Expr, ts: Toks, i: nat)
    requires e.Un? && Sayable(e) && SaidAt(ts, i, Words(e)) && Follows(UNARY, ts[i + |Words(e)|])
    ensures ReadsAs(UNARY, ts, i, i + |Words(e)|, e)
    decreases e, 0
  {
    hide Say;
    SaidSplit(ts, i, [UnaryTok(e.uop)], Say(UNARY, e.a));
    Reads(UNARY, e.a, ts, i + 1);
  }

  lemma {:induction false} ReadsPreInc(e: Expr, ts: Toks, i: nat)
    requires e.PreInc? && Sayable(e) && SaidAt(ts, i, Words(e)) && Follows(UNARY, ts[i + |Words(e)|])
    ensures ReadsAs(UNARY, ts, i, i + |Words(e)|, e)
    decreases e, 0
  {
    hide Say;
    SaidSplit(ts, i, [TInc(e.up)], Say(UNARY, e.a));
    Reads(UNARY, e.a, ts, i + 1);
  }

  lemma ReadsPostInc(e: Expr, ts: Toks, i: nat)
    requires e.PostInc? && SaidAt(ts, i, Words(e))
    ensures ReadsAs(POSTFIX, ts, i, i + 2, e)
  {
    SaidSplit(ts, i, [TIdent(e.name)], [TInc(e.up)]);
    assert [TIdent(e.name)] + [TInc(e.up)] == Words(e);
    assert ParseAt(PRIMARY, ts, i) == Ok(Var(e.name), i + 1);
  }

  lemma {:induction false} ReadsCall(e: Expr, ts: Toks, i: nat)
    requires e.Call? && Sayable(e) && SaidAt(ts, i, Words(e))
    ensures ReadsAs(POSTFIX, ts, i, i + |Words(e)|, e)
    decreases e, 0
  {
    hide Say, SayArgs, ParseArgs, ParseAt, PostRest, ParsePrimary, AllSayable, Stops;
    var f, args := e.callee, e.args;
    var k := i + 2 + |SayArgs(args)|;
    SaidSplit(ts, i, [TIdent(f), TLp] + SayArgs(args), [TRp]);
    SaidSplit(ts, i, [TIdent(f), TLp], SayArgs(args));
    assert [TIdent(f), TLp] == [TIdent(f)] + [TLp];
    SaidSplit(ts, i, [TIdent(f)], [TLp]);
    HeadTok(ts, i, Words(e));
    if |args| > 0 {
      ReadsArgs(args, ts, i + 2, []);
      ArgsStart(args, ts, i + 2);
      assert [] + args == args;
    } else {
      NoArgs(args);
    }
    CallIs(ts, i, f, args, k);
  }

  lemma CallIs(ts: Toks, i: nat, f: string, args: seq<Expr>, k: nat)
    requires i + 2 < |ts| && ts[i] == TIdent(f) && ts[i + 1] == TLp && k < |ts| && ts[k] == TRp
    requires if args == [] then k == i + 2 else ts[i + 2] != TRp && ParseArgs(ts, i + 2, []) == Ok(args, k)
    ensures k + 1 < |ts| && ParseAt(POSTFIX, ts, i) == PostRest(ts, k + 1, Call(f, args))
  {
    hide ParseArgs;
    assert ParseAt(PRIMARY, ts, i) == Ok(Var(f), i + 1);
  }

  lemma NoArgs(es: seq<Expr>)
    requires es == []
    ensures SayArgs(es) == []
  {
  }

  lemma ArgsStart(es: seq<Expr>, ts: Toks, i: nat)
    requires |es| > 0 && SaidAt(ts, i, SayArgs(es))
    ensures ts[i] != TRp
  {
    hide Say;
    FirstTok(ASSIGN, es[0]);
    HeadTok(ts, i, SayArgs(es));
  }

  lemma {:induction false} ReadsArgs(es: seq<Expr>, ts: Toks, i: nat, args: seq<Expr>)
    requires |es| > 0 && |args| + |es| <= MAX_ARGS && AllSayable(es) && SaidAt(ts, i, SayArgs(es))
      && ts[i + |SayArgs(es)|] == TRp
    ensures ParseArgs(ts, i, args) == Ok(args + es, i + |SayArgs(es)|)
    decreases es, 0
  {
    hide Say, Sayable, ParseAt, ParseArgs, OpLevel, PostRest, BinRest, AssignRest;
    var e := es[0];
    var j := i + |Say(ASSIGN, e)|;
    if |es| > 1 {
      SaidSplit(ts, i, Say(ASSIGN, e) + [TComma], SayArgs(es[1..]));
      SaidSplit(ts, i, Say(ASSIGN, e), [TComma]);
    }
    ReadsArg(e, ts, i);
    if |es| > 1 {
      ReadsArgs(es[1..], ts, j + 1, args + [e]);
      assert (args + [e]) + es[1..] == args + es;
    } else {
      assert args + es == args + [e];
    }
    ArgsIs(ts, i, args, e, j);
  }

  lemma {:induction false} ReadsArg(e: Expr, ts: Toks, i: nat)
    requires Sayable(e) && SaidAt(ts, i, Say(ASSIGN, e))
      && (ts[i + |Say(ASSIGN, e)|] == TComma || ts[i + |Say(ASSIGN, e)|] == TRp)
    ensures ParseAt(ASSIGN, ts, i) == Ok(e, i + |Say(ASSIGN, e)|)
    decreases e, 4
  {
    hide Say, Sayable, ParseAt, SaidAt;
    Reads(ASSIGN, e, ts, i);
    RestStops(ASSIGN, ts, i + |Say(ASSIGN, e)|, e);
  }

  lemma ArgsIs(ts: Toks, i: nat, args: seq<Expr>, e: Expr, j: nat)
    requires i < j < |ts| && ParseAt(ASSIGN, ts, i) == Ok(e, j) && |args| < MAX_ARGS
    ensures ParseArgs(ts, i, args) == if ts[j] == TComma then ParseArgs(ts, j + 1, args + [e]) else Ok(args + [e], j)
  {
    hide ParseAt;
  }

  lemma {:induction false} ReadsAssign(e: Expr, ts: Toks, i: nat)
    requires e.Assign? && Sayable(e.a) && SaidAt(ts, i, Words(e)) && Follows(ASSIGN, ts[i + |Words(e)|])
    ensures ReadsAs(ASSIGN, ts, i, i + |Words(e)|, e)
    decreases e, 0
  {
    hide Say, ParseAt, Sayable, OpLevel, PostRest, BinRest;
    var x, j := Var(e.name), i + |Words(e)|;
    SaidSplit(ts, i, [TIdent(e.name), TAssign(e.aop)], Say(ASSIGN, e.a));
    assert [TIdent(e.name), TAssign(e.aop)] == [TIdent(e.name)] + [TAssign(e.aop)];
    SaidSplit(ts, i, [TIdent(e.name)], [TAssign(e.aop)]);
    ReadsWord(x, ts, i);
    Loosen(PRIMARY, OROR, ts, i, i + 1, x);
    RestStops(OROR, ts, i + 1, x);
    Reads(ASSIGN, e.a, ts, i + 2);
    RestStops(ASSIGN, ts, j, e.a);
    RestStops(ASSIGN, ts, j, e);
    AssignIs(ts, i, e.name, e.aop, e.a, j);
  }

  lemma AssignIs(ts: Toks, i: nat, x: string, op: AssignOp, a: Expr, j: nat)
    requires i + 2 < |ts| && ParseAt(OROR, ts, i) == Ok(Var(x), i + 1) && ts[i + 1] == TAssign(op)
      && ParseAt(ASSIGN, ts, i + 2) == Ok(a, j)
    ensures ParseAt(ASSIGN, ts, i) == Ok(Assign(op, x, a), j)
  {
  }

  /** Every expression tree, written with just the parentheses it needs, parses
      back to itself, up to exactly its last token, in front of any token that
      does not go on with an expression. */
  lemma RoundTrips(e: Expr, ts: Toks, i: nat)
    requires Sayable(e) && SaidAt(ts, i, Say(ASSIGN, e)) && Stops(ASSIGN, ts[i + |Say(ASSIGN, e)|])
    ensures ParseAt(ASSIGN, ts, i) == Ok(e, i + |Say(ASSIGN, e)|)
  {
    hide ParseAt, Say, Sayable;
    Reads(ASSIGN, e, ts, i);
    RestStops(ASSIGN, ts, i + |Say(ASSIGN, e)|, e);
  }

  // ---- only sayable trees come out of the parser ----

  /** Every tree the parser produces is one that can be written, so what is
      written can be read, and what was read can be written and read again. */
  lemma {:induction false} ParsedSayable(l: nat, ts: Toks, i: nat)
    requires l <= PRIMARY && i < |ts|
    ensures ParseAt(l, ts, i).Ok? ==> Sayable(ParseAt(l, ts, i).value)
    decreases |ts| - i, 14 - l
  {
    hide BinRest, AssignRest, PostRest;
    if l == ASSIGN {
      ParsedSayable(OROR, ts, i);
      var r := ParseAt(OROR, ts, i);
      if r.Ok? { RestSayable(ASSIGN, ts, r.next, r.value); }
    } else if l <= MULT {
      ParsedSayable(l + 1, ts, i);
      var r := ParseAt(l + 1, ts, i);
      if r.Ok? { RestSayable(l, ts, r.next, r.value); }
    } else if l == UNARY {
      if IsUnary(ts[i]) { ParsedSayable(UNARY, ts, i + 1); } else { ParsedSayable(POSTFIX, ts, i); }
    } else if l == POSTFIX {
      ParsedSayable(PRIMARY, ts, i);
      var r := ParseAt(PRIMARY, ts, i);
      if r.Ok? { RestSayable(POSTFIX, ts, r.next, r.value); }
    } else if ts[i] == TLp {
      ParsedSayable(ASSIGN, ts, i + 1);
    }
  }

  lemma {:induction false} RestSayable(l: nat, ts: Toks, i: nat, e: Expr)
    requires l <= PRIMARY && i < |ts| && Sayable(e)
    ensures Rest(l, ts, i, e).Ok? ==> Sayable(Rest(l, ts, i, e).value)
    decreases |ts| - i, 1
  {
    hide ParseAt, ParseArgs;
    if l == ASSIGN {
      if ts[i].TAssign? { ParsedSayable(ASSIGN, ts, i + 1); }
    } else if l <= MULT {
      if TokLevel(ts[i]) == l {
        ParsedSayable(l + 1, ts, i + 1);
        var r := ParseAt(l + 1, ts, i + 1);
        if r.Ok? {
          SayableBin(ts[i], e, r.value);
          RestSayable(l, ts, r.next, MakeBin(ts[i], e, r.value));
        }
      }
    } else if l == POSTFIX {
      PostSayable(ts, i, e);
    }
  }

  lemma SayableBin(t: Tok, a: Expr, b: Expr)
    requires TokLevel(t) > 0 && Sayable(a) && Sayable(b)
    ensures Sayable(MakeBin(t, a, b))
  {
  }

  lemma {:induction false} PostSayable(ts: Toks, i: nat, e: Expr)
    requires i < |ts| && Sayable(e)
    ensures PostRest(ts, i, e).Ok? ==> Sayable(PostRest(ts, i, e).value)
    decreases |ts| - i, 0
  {
    hide ParseAt, ParseArgs;
    if ts[i] == TLp && e.Var? {
      if ts[i + 1] == TRp {
        PostSayable(ts, i + 2, Call(e.name, []));
      } else {
        ArgsSayable(ts, i + 1, []);
        var r := ParseArgs(ts, i + 1, []);
        if r.Ok? && ts[r.next] == TRp { PostSayable(ts, r.next + 1, Call(e.name, r.value)); }
      }
    } else if ts[i].TInc? && e.Var? {
      PostSayable(ts, i + 1, PostInc(e.name, ts[i].up));
    }
  }

  lemma {:induction false} ArgsSayable(ts: Toks, i: nat, args: seq<Expr>)
    requires i < |ts| && |args| <= MAX_ARGS && AllSayable(args)
    ensures ParseArgs(ts, i, args).Ok? ==> AllSayable(ParseArgs(ts, i, args).value)
    decreases |ts| - i, 15
  {
    hide ParseAt, Sayable;
    ParsedSayable(ASSIGN, ts, i);
    var r := ParseAt(ASSIGN, ts, i);
    if r.Ok? && |args| < MAX_ARGS {
      AllSayableSnoc(args, r.value);
      if ts[r.next] == TComma { ArgsSayable(ts, r.next + 1, args + [r.value]); }
    }
  }

  lemma {:induction false} AllSayableSnoc(es: seq<Expr>, e: Expr)
    requires AllSayable(es) && Sayable(e)
    ensures AllSayable(es + [e])
    decreases |es|
  {
    hide Sayable;
    if |es| > 0 {
      AllSayableSnoc(es[1..], e);
      assert (es + [e])[1..] == es[1..] + [e];
    }
  }
}
