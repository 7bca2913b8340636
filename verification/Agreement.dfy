/** Where compiled code means what the language documents, and where not. */
module Agreement {
  import opened Wrappers
  import opened Word
  import opened Ast
  import opened Bytecode
  import opened CodeGen
  import opened Linking
  import opened Vm
  import opened Config
  import opened Compiled
  import opened Meaning

  function AsRes(r: Answer): Res {
    match r
    case Gives(v, st, tr) => Ok([v], st, tr)
    case Aborts(e, tr) => Err(e, tr)
    case Unfinished => Timeout
  }

  function AsAll(r: Answers): Res {
    match r
    case GiveAll(vs, st, tr) => Ok(vs, st, tr)
    case AbortAll(e, tr) => Err(e, tr)
    case UnfinishedAll => Timeout
  }

  function AsStmt(r: Effect): StmtRes {
    match r
    case Done(st, tr) => Norm([], st, tr)
    case Yields(v, tr) => Returned(v, tr)
    case Dies(e, tr) => StmtErr(e, tr)
    case Runs => StmtTimeout
  }

  // ---- how many values an expression leaves ----

  /** Whatever the functions called do, an expression that finishes leaves
      exactly one value if it is leak-free, and more otherwise. */
  lemma {:induction false} LeaksExactly(w: World, fx: Fx, e: Expr, st: Store, tr: Trace, fuel: nat)
    requires Pushes(w, fx, e, st, tr, fuel).Ok?
    ensures |Pushes(w, fx, e, st, tr, fuel).ps| == 1 <==> LeakFree(e)
    decreases e, 1
  {
    hide CallFn, Alu, Pads, Get, Logic, PushAll, AllLeakFree, Slot, Lookup;
    match e
    case Lit(_) =>
    case StrLit(_) =>
    case Var(_) =>
    case Call(_, args) =>
      hide LeakFree;
      CallLeaks(w, fx, e, st, tr, fuel);
      LeaksArgs(w, fx, args, st, tr, fuel);
    case Bin(_, a, b) =>
      var ra := Pushes(w, fx, a, st, tr, fuel);
      LeaksExactly(w, fx, a, st, tr, fuel);
      LeaksExactly(w, fx, b, ra.st, ra.tr, fuel);
    case AndAnd(_, _) =>
    case OrOr(_, _) =>
    case Un(_, a) => LeaksExactly(w, fx, a, st, tr, fuel);
    case PreInc(_, _) =>
    case PostInc(_, _) =>
    case Assign(_, _, a) => LeaksExactly(w, fx, a, st, tr, fuel);
  }

  lemma CallLeaks(w: World, fx: Fx, e: Expr, st: Store, tr: Trace, fuel: nat)
    requires e.Call? && Pushes(w, fx, e, st, tr, fuel).Ok?
    ensures PushAll(w, fx, e.args, st, tr, fuel).Ok?
    ensures |Pushes(w, fx, e, st, tr, fuel).ps| == 1 + |PushAll(w, fx, e.args, st, tr, fuel).ps| - |e.args|
    ensures LeakFree(e) == AllLeakFree(e.args)
  {
    hide CallFn, Alu, Pads, Get, Logic, PushAll, AllLeakFree, Slot, Lookup;
  }

  lemma {:induction false} LeaksArgs(w: World, fx: Fx, es: seq<Expr>, st: Store, tr: Trace, fuel: nat)
    requires PushAll(w, fx, es, st, tr, fuel).Ok?
    ensures |PushAll(w, fx, es, st, tr, fuel).ps| == |es| <==> AllLeakFree(es)
    decreases es, 0
  {
    hide Pushes, LeakFree;
    if |es| > 0 {
      var r := Pushes(w, fx, es[0], st, tr, fuel);
      LeaksExactly(w, fx, es[0], st, tr, fuel);
      LeaksArgs(w, fx, es[1..], r.st, r.tr, fuel);
    }
  }

  // ---- meaning preserved ----

  lemma ArithTwo(op: AluOp, a: u64, b: u64, st: Store, tr: Trace)
    ensures ArithTop(op, [a] + [b], st, tr) == AsRes(Binary(op, a, b, st, tr))
  {
    hide Alu;
    assert Init(Init([a] + [b])) == [];
  }

  lemma {:induction false} AgreeExpr(w: World, fx: Fx, e: Expr, st: Store, tr: Trace, fuel: nat)
    requires WorldLeakFree(w) && LeakFree(e)
    ensures Pushes(w, fx, e, st, tr, fuel) == AsRes(Eval(w, fx, e, st, tr, fuel))
    decreases fuel, e, 1
  {
    hide CallFn, Apply, Alu, Pads, Get, WorldLeakFree, Slot, Lookup, ArithTop, Binary, Logic, PushAll, EvalAll;
    match e
    case Lit(_) =>
    case StrLit(_) =>
    case Var(_) =>
    case Call(_, _) => AgreeCallExpr(w, fx, e, st, tr, fuel);
    case Bin(op, a, b) =>
      AgreeExpr(w, fx, a, st, tr, fuel);
      var r := Eval(w, fx, a, st, tr, fuel);
      if r.Gives? {
        AgreeExpr(w, fx, b, r.st, r.tr, fuel);
        var r2 := Eval(w, fx, b, r.st, r.tr, fuel);
        if r2.Gives? {
          ArithTwo(op, r.v, r2.v, r2.st, r2.tr);
        }
      }
    case Un(_, a) => AgreeExpr(w, fx, a, st, tr, fuel);
    case PostInc(_, _) =>
    case Assign(op, x, a) =>
      AgreeExpr(w, fx, a, st, tr, fuel);
      var r := Eval(w, fx, a, st, tr, fuel);
      if r.Gives? && op.Compound? {
        ArithTwo(op.op, Get(st, x), r.v, r.st, r.tr);
      }
  }

  lemma {:induction false} AgreeCallExpr(w: World, fx: Fx, e: Expr, st: Store, tr: Trace, fuel: nat)
    requires e.Call? && WorldLeakFree(w) && LeakFree(e)
    ensures Pushes(w, fx, e, st, tr, fuel) == AsRes(Eval(w, fx, e, st, tr, fuel))
    decreases fuel, e, 0
  {
    hide CallFn, Apply, Alu, Pads, WorldLeakFree, Slot, Lookup, PushAll, EvalAll;
    AgreeArgs(w, fx, e.args, st, tr, fuel);
    var r := EvalAll(w, fx, e.args, st, tr, fuel);
    if r.GiveAll? {
      var all := r.vs + Pads(fx.reg, e.callee, |e.args|);
      assert all[0..] == all && all[..0] == [];
      if fuel > 0 {
        AgreeCall(w, e.callee, all, r.st, r.tr, fuel - 1);
      }
    }
  }

  lemma {:induction false} AgreeArgs(w: World, fx: Fx, es: seq<Expr>, st: Store, tr: Trace, fuel: nat)
    requires WorldLeakFree(w) && AllLeakFree(es)
    ensures PushAll(w, fx, es, st, tr, fuel) == AsAll(EvalAll(w, fx, es, st, tr, fuel))
    ensures EvalAll(w, fx, es, st, tr, fuel).GiveAll? ==> |EvalAll(w, fx, es, st, tr, fuel).vs| == |es|
    decreases fuel, es, 0
  {
    hide Pushes, Eval, LeakFree, WorldLeakFree;
    if |es| > 0 {
      AgreeExpr(w, fx, es[0], st, tr, fuel);
      var r := Eval(w, fx, es[0], st, tr, fuel);
      if r.Gives? {
        AgreeArgs(w, fx, es[1..], r.st, r.tr, fuel);
      }
    }
  }

  /** A call's value, and no other effect on the caller's variables. */
  lemma {:induction false} AgreeCall(w: World, f: string, args: seq<u64>, st: Store, tr: Trace, fuel: nat)
    requires WorldLeakFree(w)
    ensures (match CallFn(w, f, args, tr, fuel)
             case Result(v, tr1) => Ok([v], st, tr1)
             case CallErr(e, tr1) => Err(e, tr1)
             case CallTimeout => Timeout) == AsRes(Apply(w, f, args, st, tr, fuel))
    decreases fuel
  {
    hide ExecAll, DoAll, FnEnv, Bind, ParamSyms, Lookup;
    var reg, defs := Now(w, tr).m.reg, Now(w, tr).defs;
    var at := Lookup(reg, f);
    if at.Some? && reg[at.value].builtin.None? && at.value < |defs| && defs[at.value].Source?
      && defs[at.value].decl.FuncDecl? {
      var d := defs[at.value];
      assert DefsLeakFree(defs);
      var syms := FnEnv(d.decl.params, d.decl.body, d.reg).syms;
      AgreeAll(w, Fx(d.decl.name, d.reg), d.decl.body, ParamSyms(d.decl.params), Bind(syms, args), tr, fuel);
    }
  }

  lemma AfterNothing(r: StmtRes)
    ensures After([], r) == r
  {
    if r.Norm? {
      assert [] + r.leak == r.leak;
    }
  }

  lemma {:induction false} AgreeBare(w: World, fx: Fx, e: Expr, st: Store, tr: Trace, fuel: nat)
    requires WorldLeakFree(w) && e.Var?
    ensures PushBare(w, fx, e, st, tr, fuel) ==
            if fuel == 0 then Timeout else AsRes(Apply(w, e.name, Pads(fx.reg, e.name, 0), st, tr, fuel - 1))
    decreases fuel, e, 2
  {
    hide Apply, CallFn, Pads, WorldLeakFree;
    if fuel > 0 {
      AgreeCall(w, e.name, Pads(fx.reg, e.name, 0), st, tr, fuel - 1);
    }
  }

  lemma AgreeDecl(w: World, fx: Fx, x: string, init: Option<Expr>, st: Store, tr: Trace, fuel: nat)
    requires WorldLeakFree(w) && OptLeakFree(init)
    ensures ExecDecl(w, fx, x, init, st, tr, fuel) == AsStmt(DoDecl(w, fx, x, init, st, tr, fuel))
    decreases fuel, init, 0
  {
    hide Pushes, Eval, WorldLeakFree;
    if init.Some? {
      AgreeExpr(w, fx, init.value, st, tr, fuel);
    }
  }

  lemma {:induction false} AgreeStmt(w: World, fx: Fx, s: Stmt, scope: seq<Sym>, st: Store, tr: Trace, fuel: nat)
    requires WorldLeakFree(w) && StmtLeakFree(s)
    ensures ExecStmt(w, fx, s, scope, st, tr, fuel) == AsStmt(Do(w, fx, s, scope, st, tr, fuel))
    decreases fuel, s, 3
  {
    hide Pushes, PushBare, Eval, Apply, ExecLoop, DoLoop, LeakFree, WorldLeakFree, Slot, SymsAfter, Effective, Pads,
      After;
    match s
    case ExprStmt(e) =>
      BareIsVar(e, scope, fx.reg);
      if Effective(e, scope, fx.reg) == e {
        AgreeExpr(w, fx, e, st, tr, fuel);
      } else {
        AgreeBare(w, fx, e, st, tr, fuel);
      }
    case VarDecl(x, _, init) => AgreeDecl(w, fx, x, init, st, tr, fuel);
    case Block(ss) => AgreeAll(w, fx, ss, scope, st, tr, fuel);
    case If(c, t, els) =>
      AgreeExpr(w, fx, c, st, tr, fuel);
      var r := Eval(w, fx, c, st, tr, fuel);
      if r.Gives? {
        if r.v != 0 {
          AgreeStmt(w, fx, t, scope, r.st, r.tr, fuel);
          AfterNothing(ExecStmt(w, fx, t, scope, r.st, r.tr, fuel));
        } else if els.Some? {
          AgreeStmt(w, fx, els.value, SymsAfter(t, scope), r.st, r.tr, fuel);
          AfterNothing(ExecStmt(w, fx, els.value, SymsAfter(t, scope), r.st, r.tr, fuel));
        } else {
          AfterNothing(Norm([], r.st, r.tr));
        }
      }
    case While(_, _) => AgreeWhile(w, fx, s, scope, st, tr, fuel);
    case For(start, _, _, _) =>
      AgreeStart(w, fx, start, st, tr, fuel);
      var r := DoStart(w, fx, start, st, tr, fuel);
      if r.Done? {
        AgreeLoop(w, fx, s, StartSyms(start, scope), r.st, r.tr, fuel);
        AfterNothing(ExecLoop(w, fx, s, StartSyms(start, scope), r.st, r.tr, fuel));
      }
    case Return(v) =>
      if v.Some? {
        AgreeExpr(w, fx, v.value, st, tr, fuel);
      }
    case FuncDecl(_, _, _, _) =>
  }

  lemma BareIsVar(e: Expr, scope: seq<Sym>, reg: seq<Fn>)
    ensures Effective(e, scope, reg) != e ==> e.Var?
  {
  }

  lemma {:induction false} AgreeWhile(w: World, fx: Fx, s: Stmt, scope: seq<Sym>, st: Store, tr: Trace, fuel: nat)
    requires s.While? && WorldLeakFree(w) && StmtLeakFree(s)
    ensures ExecStmt(w, fx, s, scope, st, tr, fuel) == AsStmt(Do(w, fx, s, scope, st, tr, fuel))
    decreases fuel, s, 2
  {
    hide Pushes, Eval, LeakFree, WorldLeakFree, After, SymsAfter;
    AgreeExpr(w, fx, s.cond, st, tr, fuel);
    var r := Eval(w, fx, s.cond, st, tr, fuel);
    if r.Gives? && r.v != 0 && fuel > 0 {
      AgreeStmt(w, fx, s.loop, scope, r.st, r.tr, fuel);
      var b := Do(w, fx, s.loop, scope, r.st, r.tr, fuel);
      AfterNothing(ExecStmt(w, fx, s.loop, scope, r.st, r.tr, fuel));
      if b.Done? {
        AgreeStmt(w, fx, s, scope, b.st, b.tr, fuel - 1);
        AfterNothing(ExecStmt(w, fx, s, scope, b.st, b.tr, fuel - 1));
      }
    }
  }

  lemma AgreeStart(w: World, fx: Fx, i: ForInit, st: Store, tr: Trace, fuel: nat)
    requires WorldLeakFree(w)
    requires match i case NoInit => true case DeclInit(_, _, init) => OptLeakFree(init) case ExprInit(e) => LeakFree(e)
    ensures ExecStart(w, fx, i, st, tr, fuel) == AsStmt(DoStart(w, fx, i, st, tr, fuel))
    decreases fuel, i, 0
  {
    hide Pushes, Eval, WorldLeakFree, LeakFree;
    match i
    case NoInit =>
    case DeclInit(x, _, init) => AgreeDecl(w, fx, x, init, st, tr, fuel);
    case ExprInit(e) => AgreeExpr(w, fx, e, st, tr, fuel);
  }

  lemma {:induction false} AgreeLoop(w: World, fx: Fx, s: Stmt, sc: seq<Sym>, st: Store, tr: Trace, fuel: nat)
    requires s.For? && WorldLeakFree(w) && StmtLeakFree(s)
    ensures ExecLoop(w, fx, s, sc, st, tr, fuel) == AsStmt(DoLoop(w, fx, s, sc, st, tr, fuel))
    decreases fuel, s, 2
  {
    hide Pushes, Eval, LeakFree, WorldLeakFree, After, ExecStmt, Do;
    if s.test.Some? {
      AgreeExpr(w, fx, s.test.value, st, tr, fuel);
    }
    var r := if s.test.Some? then Eval(w, fx, s.test.value, st, tr, fuel) else Gives(1, st, tr);
    if r.Gives? && r.v != 0 && fuel > 0 {
      AgreeStmt(w, fx, s.loop, sc, r.st, r.tr, fuel);
      var b := Do(w, fx, s.loop, sc, r.st, r.tr, fuel);
      AfterNothing(ExecStmt(w, fx, s.loop, sc, r.st, r.tr, fuel));
      if b.Done? {
        AgreePost(w, fx, s, sc, b.st, b.tr, fuel);
        AfterNothing(ExecPost(w, fx, s, sc, b.st, b.tr, fuel));
      }
    }
  }

  lemma {:induction false} AgreePost(w: World, fx: Fx, s: Stmt, sc: seq<Sym>, st: Store, tr: Trace, fuel: nat)
    requires s.For? && WorldLeakFree(w) && StmtLeakFree(s) && fuel > 0
    ensures ExecPost(w, fx, s, sc, st, tr, fuel) ==
      (match (if s.post.None? then Done(st, tr) else Forget(Eval(w, fx, s.post.value, st, tr, fuel)))
       case Done(st2, tr2) => AsStmt(DoLoop(w, fx, s, sc, st2, tr2, fuel - 1))
       case e => AsStmt(e))
    decreases fuel, s, 1
  {
    hide Pushes, Eval, LeakFree, WorldLeakFree, After, ExecLoop, DoLoop;
    if s.post.Some? {
      AgreeExpr(w, fx, s.post.value, st, tr, fuel);
    }
    var e := if s.post.None? then Done(st, tr) else Forget(Eval(w, fx, s.post.value, st, tr, fuel));
    if e.Done? {
      AgreeLoop(w, fx, s, sc, e.st, e.tr, fuel - 1);
      AfterNothing(ExecLoop(w, fx, s, sc, e.st, e.tr, fuel - 1));
    }
  }

  lemma {:induction false} AgreeAll(w: World, fx: Fx, ss: seq<Stmt>, scope: seq<Sym>, st: Store, tr: Trace, fuel: nat)
    requires WorldLeakFree(w) && StmtsLeakFree(ss)
    ensures ExecAll(w, fx, ss, scope, st, tr, fuel) == AsStmt(DoAll(w, fx, ss, scope, st, tr, fuel))
    decreases fuel, ss, 0
  {
    hide ExecStmt, Do, StmtLeakFree, WorldLeakFree, After, SymsAfter;
    if |ss| > 0 {
      AgreeStmt(w, fx, ss[0], scope, st, tr, fuel);
      var r := Do(w, fx, ss[0], scope, st, tr, fuel);
      if r.Done? {
        AgreeAll(w, fx, ss[1..], SymsAfter(ss[0], scope), r.st, r.tr, fuel);
        AfterNothing(ExecAll(w, fx, ss[1..], SymsAfter(ss[0], scope), r.st, r.tr, fuel));
      }
    }
  }

  // ---- where it is not preserved ----

  /** Whatever the operands are and leave behind: when `&&` finishes, 1 is on top
      and 0 beneath it, when `||` does, the other way round. */
  lemma LogicTop(w: World, fx: Fx, e: Expr, st: Store, tr: Trace, fuel: nat)
    requires e.AndAnd? || e.OrOr?
    ensures var r := Pushes(w, fx, e, st, tr, fuel);
      r.Ok? ==> |r.ps| >= 2 && Top(r.ps) == Bool64(e.AndAnd?) && r.ps[|r.ps| - 2] == Bool64(e.OrOr?)
  {
    LogicUnfold(w, fx, e, st, tr, fuel);
    hide Pushes, Slot, Lookup;
    var ra := Pushes(w, fx, e.a, st, tr, fuel);
    var both := if e.AndAnd? then [0, 1] else [1, 0];
    if ra.Ok? && (Top(ra.ps) == 0) != e.AndAnd? {
      var rb := Pushes(w, fx, e.b, ra.st, ra.tr, fuel);
      if rb.Ok? {
        assert Init(ra.ps) + (Init(rb.ps) + both) == (Init(ra.ps) + Init(rb.ps)) + both;
      }
    }
  }

  /** The operand has the value that `&&` (not 0) or `||` (0) waits for. */
  predicate Waits(e: Expr, r: Answer) { r.Gives? && (r.v != 0) == e.AndAnd? }

  /** Over leak-free operands the top is the documented value if and only if both
      operands are not 0, for `&&`, or both are 0, for `||`; and the stack is one
      cell too high in every case. */
  lemma LogicExact(w: World, fx: Fx, e: Expr, st: Store, tr: Trace, fuel: nat)
    requires e.AndAnd? || e.OrOr?
    requires WorldLeakFree(w) && LeakFree(e.a) && LeakFree(e.b)
    ensures Pushes(w, fx, e, st, tr, fuel).Ok? <==> Eval(w, fx, e, st, tr, fuel).Gives?
    ensures Pushes(w, fx, e, st, tr, fuel).Ok? ==>
      var r, d := Pushes(w, fx, e, st, tr, fuel), Eval(w, fx, e, st, tr, fuel);
      var ra := Eval(w, fx, e.a, st, tr, fuel);
      && r.ps == (if e.AndAnd? then [0, 1] else [1, 0]) && r.st == d.st && r.tr == d.tr && ra.Gives?
      && (Top(r.ps) == d.v <==> Waits(e, ra) && Waits(e, Eval(w, fx, e.b, ra.st, ra.tr, fuel)))
  {
    hide LeakFree, WorldLeakFree, Pushes, Eval, Slot, Lookup, Alu, Get;
    LogicUnfold(w, fx, e, st, tr, fuel);
    AgreeExpr(w, fx, e.a, st, tr, fuel);
    var ra := Eval(w, fx, e.a, st, tr, fuel);
    if ra.Gives? {
      AgreeExpr(w, fx, e.b, ra.st, ra.tr, fuel);
    }
  }

  lemma LogicUnfold(w: World, fx: Fx, e: Expr, st: Store, tr: Trace, fuel: nat)
    requires e.AndAnd? || e.OrOr?
    ensures Pushes(w, fx, e, st, tr, fuel) == Logic(w, fx, e, st, tr, fuel)
    ensures var ra := Eval(w, fx, e.a, st, tr, fuel);
      Eval(w, fx, e, st, tr, fuel) ==
        if !ra.Gives? then ra
        else if (ra.v == 0) == e.AndAnd? then Gives(Bool64(e.OrOr?), ra.st, ra.tr)
        else Truth(Eval(w, fx, e.b, ra.st, ra.tr, fuel))
  {
    hide CallFn, Apply, Alu, PushAll, EvalAll, Binary, ArithTop, Get, SetTo, Keep, Pads, Logic;
  }

  /** `1 && 0` is documented as 0; compiled, it leaves 0 and 1, so 1 on top. */
  lemma AndAndFails(w: World, fx: Fx, st: Store, tr: Trace)
    ensures var e := AndAnd(Lit(1), Lit(0));
      && Eval(w, fx, e, st, tr, 0) == Gives(0, st, tr)
      && Pushes(w, fx, e, st, tr, 0) == Ok([0, 1], st, tr)
  {
  }

  /** Prefix `++`/`--`: the right value and effect, over one stray cell. */
  lemma PreIncExact(w: World, fx: Fx, e: Expr, st: Store, tr: Trace, fuel: nat)
    requires e.PreInc? && e.a.Var?
    ensures var d := Eval(w, fx, e, st, tr, fuel);
      && d.Gives?
      && Pushes(w, fx, e, st, tr, fuel) == Ok([Get(st, e.a.name), d.v], d.st, d.tr)
  {
  }
}
