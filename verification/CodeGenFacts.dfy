/** Tables only grow while a function is compiled, and code determined under a
    smaller table is the code determined under the final one. */
module CodeGenFacts {
  import opened Wrappers
  import opened Word
  import opened Ast
  import opened Bytecode
  import opened CodeGen

  // ---- strings ----

  lemma {:induction false} ExprStrsGrow(e: Expr, ss: seq<string>)
    ensures ss <= ExprStrs(e, ss) && HasStrs(e, ExprStrs(e, ss))
    decreases e, 1
  {
    match e
    case Call(f, args) => ArgsStrsGrow(args, ss); ArgsHasMono(args, ArgsStrs(args, ss), ExprStrs(e, ss));
    case Bin(_, a, b) =>
      ExprStrsGrow(a, ss); ExprStrsGrow(b, ExprStrs(a, ss)); HasMono(a, ExprStrs(a, ss), ExprStrs(e, ss));
    case AndAnd(a, b) =>
      ExprStrsGrow(a, ss); ExprStrsGrow(b, ExprStrs(a, ss)); HasMono(a, ExprStrs(a, ss), ExprStrs(e, ss));
    case OrOr(a, b) =>
      ExprStrsGrow(a, ss); ExprStrsGrow(b, ExprStrs(a, ss)); HasMono(a, ExprStrs(a, ss), ExprStrs(e, ss));
    case Un(_, a) => ExprStrsGrow(a, ss);
    case Assign(_, _, a) => ExprStrsGrow(a, ss);
    case _ =>
  }

  lemma {:induction false} ArgsStrsGrow(es: seq<Expr>, ss: seq<string>)
    ensures ss <= ArgsStrs(es, ss) && HasAllStrs(es, ArgsStrs(es, ss))
    decreases es, 0
  {
    if |es| > 0 {
      ExprStrsGrow(es[0], ss);
      ArgsStrsGrow(es[1..], ExprStrs(es[0], ss));
      HasMono(es[0], ExprStrs(es[0], ss), ArgsStrs(es, ss));
    }
  }

  lemma {:induction false} HasMono(e: Expr, s1: seq<string>, s2: seq<string>)
    requires s1 <= s2 && HasStrs(e, s1)
    ensures HasStrs(e, s2)
    decreases e, 1
  {
    match e
    case Call(f, args) => ArgsHasMono(args, s1, s2);
    case Bin(_, a, b) => HasMono(a, s1, s2); HasMono(b, s1, s2);
    case AndAnd(a, b) => HasMono(a, s1, s2); HasMono(b, s1, s2);
    case OrOr(a, b) => HasMono(a, s1, s2); HasMono(b, s1, s2);
    case Un(_, a) => HasMono(a, s1, s2);
    case Assign(_, _, a) => HasMono(a, s1, s2);
    case _ =>
  }

  lemma {:induction false} ArgsHasMono(es: seq<Expr>, s1: seq<string>, s2: seq<string>)
    requires s1 <= s2 && HasAllStrs(es, s1)
    ensures HasAllStrs(es, s2)
    decreases es, 0
  {
    if |es| > 0 {
      HasMono(es[0], s1, s2);
      ArgsHasMono(es[1..], s1, s2);
    }
  }

  lemma OptStrsGrow(e: Option<Expr>, ss: seq<string>)
    ensures ss <= OptStrs(e, ss) && OptHas(e, OptStrs(e, ss))
  {
    if e.Some? { ExprStrsGrow(e.value, ss); }
  }

  lemma OptHasMono(e: Option<Expr>, s1: seq<string>, s2: seq<string>)
    requires s1 <= s2 && OptHas(e, s1)
    ensures OptHas(e, s2)
  {
    if e.Some? { HasMono(e.value, s1, s2); }
  }

  lemma StartStrsGrow(st: ForInit, ss: seq<string>)
    ensures ss <= StartStrs(st, ss) && StartHas(st, StartStrs(st, ss))
  {
    match st
    case NoInit =>
    case DeclInit(_, _, init) => OptStrsGrow(init, ss);
    case ExprInit(e) => ExprStrsGrow(e, ss);
  }

  lemma StartHasMono(st: ForInit, s1: seq<string>, s2: seq<string>)
    requires s1 <= s2 && StartHas(st, s1)
    ensures StartHas(st, s2)
  {
    match st
    case NoInit =>
    case DeclInit(_, _, init) => OptHasMono(init, s1, s2);
    case ExprInit(e) => HasMono(e, s1, s2);
  }

  lemma {:induction false} StmtHasMono(s: Stmt, scope: seq<Sym>, reg: seq<Fn>, s1: seq<string>, s2: seq<string>)
    requires s1 <= s2 && StmtHas(s, scope, reg, s1)
    ensures StmtHas(s, scope, reg, s2)
    decreases s, 1
  {
    match s
    case ExprStmt(e) => HasMono(Effective(e, scope, reg), s1, s2);
    case VarDecl(_, _, init) => OptHasMono(init, s1, s2);
    case Block(b) => StmtsHasMono(b, scope, reg, s1, s2);
    case If(c, t, els) =>
      HasMono(c, s1, s2);
      StmtHasMono(t, scope, reg, s1, s2);
      match els { case None => case Some(f) => StmtHasMono(f, SymsAfter(t, scope), reg, s1, s2); }
    case While(c, b) => HasMono(c, s1, s2); StmtHasMono(b, scope, reg, s1, s2);
    case For(st, test, post, b) =>
      StartHasMono(st, s1, s2);
      OptHasMono(test, s1, s2);
      StmtHasMono(b, StartSyms(st, scope), reg, s1, s2);
      OptHasMono(post, s1, s2);
    case Return(v) => OptHasMono(v, s1, s2);
    case FuncDecl(_, _, _, _) =>
  }

  lemma {:induction false} StmtsHasMono(b: seq<Stmt>, scope: seq<Sym>, reg: seq<Fn>, s1: seq<string>, s2: seq<string>)
    requires s1 <= s2 && StmtsHas(b, scope, reg, s1)
    ensures StmtsHas(b, scope, reg, s2)
    decreases b, 0
  {
    if |b| > 0 {
      StmtHasMono(b[0], scope, reg, s1, s2);
      StmtsHasMono(b[1..], SymsAfter(b[0], scope), reg, s1, s2);
    }
  }

  lemma {:induction false} StmtStrsGrow(s: Stmt, scope: seq<Sym>, reg: seq<Fn>, ss: seq<string>)
    ensures ss <= StmtStrs(s, scope, reg, ss)
    ensures StmtHas(s, scope, reg, StmtStrs(s, scope, reg, ss))
    decreases s, 1
  {
    var out := StmtStrs(s, scope, reg, ss);
    match s
    case ExprStmt(e) => ExprStrsGrow(Effective(e, scope, reg), ss);
    case VarDecl(_, _, init) => OptStrsGrow(init, ss);
    case Block(b) => StmtsStrsGrow(b, scope, reg, ss);
    case If(c, t, els) =>
      var s1 := ExprStrs(c, ss);
      var s2 := StmtStrs(t, scope, reg, s1);
      ExprStrsGrow(c, ss);
      StmtStrsGrow(t, scope, reg, s1);
      match els {
        case None =>
        case Some(f) =>
          StmtStrsGrow(f, SymsAfter(t, scope), reg, s2);
          StmtHasMono(t, scope, reg, s2, out);
      }
      HasMono(c, s1, out);
    case While(c, b) =>
      ExprStrsGrow(c, ss);
      StmtStrsGrow(b, scope, reg, ExprStrs(c, ss));
      HasMono(c, ExprStrs(c, ss), out);
    case For(st, test, post, b) =>
      var s1 := StartStrs(st, ss);
      var s2 := OptStrs(test, s1);
      var s3 := StmtStrs(b, StartSyms(st, scope), reg, s2);
      StartStrsGrow(st, ss);
      OptStrsGrow(test, s1);
      StmtStrsGrow(b, StartSyms(st, scope), reg, s2);
      OptStrsGrow(post, s3);
      StartHasMono(st, s1, out);
      OptHasMono(test, s2, out);
      StmtHasMono(b, StartSyms(st, scope), reg, s3, out);
    case Return(v) => OptStrsGrow(v, ss);
    case FuncDecl(_, _, _, _) =>
  }

  lemma {:induction false} StmtsStrsGrow(b: seq<Stmt>, scope: seq<Sym>, reg: seq<Fn>, ss: seq<string>)
    ensures ss <= StmtsStrs(b, scope, reg, ss)
    ensures StmtsHas(b, scope, reg, StmtsStrs(b, scope, reg, ss))
    decreases b, 0
  {
    if |b| > 0 {
      var s1 := StmtStrs(b[0], scope, reg, ss);
      StmtStrsGrow(b[0], scope, reg, ss);
      StmtsStrsGrow(b[1..], SymsAfter(b[0], scope), reg, s1);
      StmtHasMono(b[0], scope, reg, s1, StmtsStrs(b, scope, reg, ss));
    }
  }

  // ---- symbols ----

  lemma {:induction false} SymsGrow(s: Stmt, scope: seq<Sym>, reg: seq<Fn>, inFn: bool)
    requires StmtOk(s, scope, reg, inFn) && |scope| <= MAX_LOCALS
    ensures SymsLe(scope, SymsAfter(s, scope)) && |SymsAfter(s, scope)| <= MAX_LOCALS
    decreases s, 1
  {
    match s
    case VarDecl(x, ty, _) => SymsLeAdd(scope, Sym(x, ty));
    case Block(ss) => SymsGrowAll(ss, scope, reg, inFn);
    case If(_, t, els) =>
      SymsGrow(t, scope, reg, inFn);
      match els {
        case None =>
        case Some(f) =>
          SymsGrow(f, SymsAfter(t, scope), reg, inFn);
          SymsLeTrans(scope, SymsAfter(t, scope), SymsAfter(s, scope));
      }
    case While(_, b) => SymsGrow(b, scope, reg, inFn);
    case For(st, _, _, b) =>
      if st.DeclInit? { SymsLeAdd(scope, Sym(st.name, st.ty)); }
      SymsGrow(b, StartSyms(st, scope), reg, inFn);
      SymsLeTrans(scope, StartSyms(st, scope), SymsAfter(s, scope));
    case _ =>
  }

  lemma {:induction false} SymsGrowAll(ss: seq<Stmt>, scope: seq<Sym>, reg: seq<Fn>, inFn: bool)
    requires StmtsOk(ss, scope, reg, inFn) && |scope| <= MAX_LOCALS
    ensures SymsLe(scope, SymsAfterAll(ss, scope)) && |SymsAfterAll(ss, scope)| <= MAX_LOCALS
    decreases ss, 0
  {
    if |ss| > 0 {
      SymsGrow(ss[0], scope, reg, inFn);
      SymsGrowAll(ss[1..], SymsAfter(ss[0], scope), reg, inFn);
      SymsLeTrans(scope, SymsAfter(ss[0], scope), SymsAfterAll(ss, scope));
    }
  }

  lemma {:induction false} ExprOkMono(e: Expr, a: seq<Sym>, b: seq<Sym>, reg: seq<Fn>)
    requires ExprOk(e, a, reg) && SymsLe(a, b)
    ensures ExprOk(e, b, reg)
    decreases e, 1
  {
    match e
    case Var(x) => SlotStable(a, b, x);
    case Call(_, args) => ArgsOkMono(args, a, b, reg);
    case Bin(_, p, q) => ExprOkMono(p, a, b, reg); ExprOkMono(q, a, b, reg);
    case AndAnd(p, q) => ExprOkMono(p, a, b, reg); ExprOkMono(q, a, b, reg);
    case OrOr(p, q) => ExprOkMono(p, a, b, reg); ExprOkMono(q, a, b, reg);
    case Un(_, p) => ExprOkMono(p, a, b, reg);
    case PreInc(p, _) => SlotStable(a, b, p.name);
    case PostInc(x, _) => SlotStable(a, b, x);
    case Assign(_, x, p) => SlotStable(a, b, x); ExprOkMono(p, a, b, reg);
    case _ =>
  }

  lemma {:induction false} ArgsOkMono(es: seq<Expr>, a: seq<Sym>, b: seq<Sym>, reg: seq<Fn>)
    requires ArgsOk(es, a, reg) && SymsLe(a, b)
    ensures ArgsOk(es, b, reg)
    decreases es, 0
  {
    if |es| > 0 {
      ExprOkMono(es[0], a, b, reg);
      ArgsOkMono(es[1..], a, b, reg);
    }
  }

  // ---- environments ----

  lemma Assoc(a: seq<byte>, b: seq<byte>, c: seq<byte>)
    ensures a + (b + c) == (a + b) + c
  {
  }

  lemma EnvLeRefl(e: Env)
    ensures EnvLe(e, e)
  {
  }

  lemma SymsLeRefl(a: seq<Sym>)
    ensures SymsLe(a, a)
  {
  }

  /** The tables as they stand while compiling, below the final ones. */
  lemma EnvLeEarlier(syms: seq<Sym>, strs: seq<string>, syms': seq<Sym>, strs': seq<string>, reg: seq<Fn>, final: Env)
    requires EnvLe(Env(syms', strs', reg), final) && SymsLe(syms, syms') && strs <= strs'
    ensures EnvLe(Env(syms, strs, reg), final)
  {
    SymsLeTrans(syms, syms', final.syms);
  }

  lemma DeclEnv(syms: seq<Sym>, s: Sym, strs: seq<string>, reg: seq<Fn>, final: Env)
    requires Slot(syms, s.name) < 0
    ensures EnvLe(Env(syms + [s], strs, reg), final) ==> EnvLe(Env(syms, strs, reg), final)
    ensures Slot(syms + [s], s.name) == |syms|
  {
    SymsLeAdd(syms, s);
    if EnvLe(Env(syms + [s], strs, reg), final) {
      EnvLeEarlier(syms, strs, syms + [s], strs, reg, final);
    }
  }

  // ---- sizes ----

  lemma {:induction false} PadCodeSize(vals: seq<u64>)
    ensures |PadCode(vals)| == 9 * |vals|
    decreases |vals|
  {
    if |vals| > 0 { PadCodeSize(vals[1..]); }
  }

  lemma {:induction false} ExprCodeNonempty(e: Expr, env: Env, pc: nat)
    ensures |ExprCode(e, env, pc)| >= 1
    decreases e
  {
    match e
    case Bin(_, a, b) =>
    case _ =>
  }

  lemma {:induction false} ArgsCodeSize(es: seq<Expr>, env: Env, pc: nat)
    ensures |ArgsCode(es, env, pc)| >= |es|
    decreases |es|
  {
    if |es| > 0 {
      ExprCodeNonempty(es[0], env, pc);
      ArgsCodeSize(es[1..], env, pc + |ExprCode(es[0], env, pc)|);
    }
  }

  // ---- one construct at a time ----

  lemma BinShape(e: Expr, scope: seq<Sym>, ss: seq<string>, env: Env, pc: nat)
    requires e.Bin?
    ensures ExprOk(e, scope, env.reg) == (ExprOk(e.a, scope, env.reg) && ExprOk(e.b, scope, env.reg))
    ensures ExprStrs(e, ss) == ExprStrs(e.b, ExprStrs(e.a, ss))
    ensures var ca := ExprCode(e.a, env, pc);
      ExprCode(e, env, pc) == ca + (ExprCode(e.b, env, pc + |ca|) + Enc(Arith(e.op)))
  {
    hide Enc, Slot;
  }

  lemma CompoundShape(e: Expr, scope: seq<Sym>, ss: seq<string>, env: Env, pc: nat)
    requires e.Assign? && e.aop.Compound?
    ensures ExprOk(e, scope, env.reg) == (Slot(scope, e.name) >= 0 && CompoundOk(e.aop.op)
      && ExprOk(e.a, scope, env.reg))
    ensures ExprStrs(e, ss) == ExprStrs(e.a, ss)
    ensures |LoadCode(e.name, env)| == 5
    ensures ExprCode(e, env, pc) ==
      LoadCode(e.name, env) + (ExprCode(e.a, env, pc + 5)
        + (Enc(Arith(e.aop.op)) + (Enc(Dup) + StoreCode(e.name, env))))
  {
    hide Enc, Slot, StoreCode;
    LoadShape(e.name, env);
  }

  lemma LoadShape(x: string, env: Env)
    ensures |LoadCode(x, env)| == 5
  {
  }

  lemma IfElseShape(s: Stmt, scope: seq<Sym>, ss: seq<string>, env: Env, pc: nat, inFn: bool)
    requires s.If? && s.els.Some?
    ensures var sc := SymsAfter(s.thn, scope);
      && StmtOk(s, scope, env.reg, inFn) ==
           (ExprOk(s.cond, scope, env.reg) && StmtOk(s.thn, scope, env.reg, inFn)
             && StmtOk(s.els.value, sc, env.reg, inFn))
      && SymsAfter(s, scope) == SymsAfter(s.els.value, sc)
      && StmtStrs(s, scope, env.reg, ss) == StmtStrs(s.els.value, sc, env.reg,
         StmtStrs(s.thn, scope, env.reg, ExprStrs(s.cond, ss)))
    ensures
      var cc := ExprCode(s.cond, env, pc);
      var ct := StmtCode(s.thn, scope, env, pc + |cc| + 5);
      StmtCode(s, scope, env, pc) ==
        IfElseLayout(cc, ct, StmtCode(s.els.value, SymsAfter(s.thn, scope), env, pc + |cc| + |ct| + 10), pc)
  {
    hide Enc, Slot, ExprCode, ExprOk, ExprStrs, IfElseLayout;
  }

  lemma WhileShape(s: Stmt, scope: seq<Sym>, ss: seq<string>, env: Env, pc: nat, inFn: bool)
    requires s.While?
    ensures StmtOk(s, scope, env.reg, inFn) == (ExprOk(s.cond, scope, env.reg) && StmtOk(s.loop, scope, env.reg, inFn))
    ensures SymsAfter(s, scope) == SymsAfter(s.loop, scope)
    ensures StmtStrs(s, scope, env.reg, ss) == StmtStrs(s.loop, scope, env.reg, ExprStrs(s.cond, ss))
    ensures var cc := ExprCode(s.cond, env, pc);
      StmtCode(s, scope, env, pc) == WhileLayout(cc, StmtCode(s.loop, scope, env, pc + |cc| + 5), pc)
  {
    hide Enc, Slot, ExprCode, ExprOk, ExprStrs, WhileLayout;
  }

  lemma UnShape(e: Expr, scope: seq<Sym>, ss: seq<string>, env: Env, pc: nat)
    requires e.Un?
    ensures ExprOk(e, scope, env.reg) == ExprOk(e.a, scope, env.reg)
    ensures ExprStrs(e, ss) == ExprStrs(e.a, ss)
    ensures ExprCode(e, env, pc) == ExprCode(e.a, env, pc) + UnCode(e.uop)
  {
    hide Enc, Slot, UnCode;
  }
}
