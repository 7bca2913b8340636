/** REPL lines over a session: the registry stays a table of faithfully compiled
    functions, a compiled line runs as its statements say, and no run of an
    accepted line ever trips one of the VM's internal checks. */
module Session {
  import opened Wrappers
  import opened Word
  import opened Ast
  import opened Bytecode
  import opened CodeGen
  import opened CodeGenFacts
  import opened Linking
  import opened Vm
  import opened Config
  import opened Compiled
  import opened Simulation
  import C = Compiler

  // ---- the registry ----

  lemma NamesGrowTrans(a: seq<Fn>, b: seq<Fn>, c: seq<Fn>)
    requires NamesGrow(a, b) && NamesGrow(b, c)
    ensures NamesGrow(a, c)
  {
  }

  /** Registering an accepted definition keeps every entry of the registry the
      code of its source. */
  lemma WorldKept(s: Stmt, w: World, limit: nat)
    requires WorldOk(w) && limit <= C.MAX_CODE
    requires s.FuncDecl? ==> FnAccepted(s, w.m.reg, limit) && |s.params| <= MAX_PARAMS
    ensures WorldOk(WorldAfter(s, w)) && NamesGrow(w.m.reg, WorldAfter(s, w).m.reg)
  {
    hide FnOf, StmtsOk, ParamSyms, FnEnv;
    if s.FuncDecl? {
      var f, w1 := FnOf(s, w.m.reg), WorldAfter(s, w);
      FnOfShape(s, w.m.reg);
      forall i | 0 <= i < |w1.m.reg| && w1.m.reg[i].builtin.None?
        ensures DefOk(w1.defs[i], w1.m.reg[i], w1.m.reg)
      {
        if i == ExactIndex(w.m.reg, f.name, 0) {
          assert w1.m.reg[i] == f;
        } else {
          assert w1.m.reg[i] == w.m.reg[i];
          NamesGrowTrans(w.defs[i].reg, w.m.reg, w1.m.reg);
        }
      }
    }
  }

  lemma FnOfShape(s: Stmt, reg: seq<Fn>)
    requires s.FuncDecl?
    ensures FnOf(s, reg).name == s.name && FnOf(s, reg).builtin.None?
    ensures FnOf(s, reg).strings == FnEnv(s.params, s.body, reg).strs
  {
    hide FnCode, FnEnv;
  }

  lemma {:induction false} WorldKeptAll(stmts: seq<Stmt>, w: World, scope: seq<Sym>, limit: nat)
    requires WorldOk(w) && limit <= C.MAX_CODE && ParamsFit(stmts) && LineOk(stmts, scope, w.m.reg, limit)
    ensures WorldOk(WorldAfterAll(stmts, w))
    ensures WorldAfterAll(stmts, w).m == w.m.(reg := RegsAfter(stmts, w.m.reg))
    ensures NamesGrow(w.m.reg, RegsAfter(stmts, w.m.reg))
    decreases |stmts|
  {
    hide WorldOk, FnAccepted, StmtOk, SymsAfter, RegAfter, DefsAfter;
    if |stmts| > 0 {
      var w1 := WorldAfter(stmts[0], w);
      WorldKept(stmts[0], w, limit);
      WorldKeptAll(stmts[1..], w1, SymsAfter(stmts[0], scope), limit);
      NamesGrowTrans(w.m.reg, w1.m.reg, RegsAfter(stmts, w.m.reg));
    }
  }

  // ---- lines that builtins run ----

  /** Definitions that compile, each against the registry it finds. */
  predicate Accepts(news: seq<Stmt>, reg: seq<Fn>, limit: nat) {
    LineOk(news, [], reg, limit) && ParamsFit(news) && forall i :: 0 <= i < |news| ==> news[i].FuncDecl?
  }

  /** What builtins define has been accepted by the compiler. */
  ghost predicate NewsOk(m: Machine, limit: nat) {
    forall reg: seq<Fn>, tr: Trace, ev: Event :: Accepts(m.news(reg, tr, ev), reg, limit)
  }

  /** So the registry stays a table of faithfully compiled functions all along. */
  lemma NewsKeep(w: World, limit: nat)
    requires WorldOk(w) && NewsOk(w.m, limit) && limit <= C.MAX_CODE
    ensures WorldsOk(w)
  {
    hide WorldOk, NewsOk, NamesGrow, Now;
    forall tr: Trace ensures WorldOk(Now(w, tr)) {
      NowKept(w, limit, tr);
    }
    forall tr: Trace, ev: Event ensures NamesGrow(Now(w, tr).m.reg, Now(w, tr + [ev]).m.reg) {
      NowNext(w, tr, ev);
      WorldMachine(NewsAt(w.m, tr, ev), Now(w, tr));
      RegsGrow(NewsAt(w.m, tr, ev), Now(w, tr).m.reg);
    }
  }

  lemma {:induction false} NowKept(w: World, limit: nat, tr: Trace)
    requires WorldOk(w) && NewsOk(w.m, limit) && limit <= C.MAX_CODE
    ensures WorldOk(Now(w, tr))
    decreases |tr|
  {
    hide WorldOk, LineOk, ParamsFit;
    if |tr| > 0 {
      var before := tr[..|tr| - 1];
      NowKept(w, limit, before);
      NowIs(w, before);
      assert Accepts(w.m.news(Now(w, before).m.reg, before, tr[|tr| - 1]), Now(w, before).m.reg, limit);
      WorldKeptAll(w.m.news(Now(w, before).m.reg, before, tr[|tr| - 1]), Now(w, before), [], limit);
    }
  }

  lemma {:induction false} StartGrown(w: World, tr: Trace)
    requires WorldsOk(w)
    ensures NamesGrow(w.m.reg, Now(w, tr).m.reg)
  {
    hide WorldsOk;
    GrowAlong(w, [], tr);
  }

  // ---- running a line ----

  /** The chunk a compiled line becomes. */
  function LineFn(stmts: seq<Stmt>, reg: seq<Fn>): Fn {
    var syms, strs := LineSyms(stmts, []), LineStrs(stmts, [], reg, []);
    Fn("<line>", None, false, VOID, 0, [], |syms|, strs, LineCode(stmts, [], syms, strs, reg, 0))
  }

  predicate LineAccepted(stmts: seq<Stmt>, reg: seq<Fn>, limit: nat) {
    && LineOk(stmts, [], reg, limit)
    && |LineFn(stmts, reg).strings| <= MAX_STRINGS
    && |LineFn(stmts, reg).code| <= limit
    && ParamsFit(stmts)
  }

  /** The machine as `noc_vm_run` sets it up: zeroed locals, one frame. */
  function Start(f: Fn, tr: Trace): Vm {
    Vm(Zeros(f.nlocals), [Frame(f, 0, 0)], tr)
  }

  /** A top-level statement; with `keep`, its value stays on the stack. */
  function ExecTop(w: World, fx: Fx, s: Stmt, keep: bool, scope: seq<Sym>, st: Store, tr: Trace, fuel: nat): StmtRes {
    if keep && s.ExprStmt? then Kept(PushEffective(w, fx, s.e, scope, st, tr, fuel))
    else ExecStmt(w, fx, s, scope, st, tr, fuel)
  }

  function PushEffective(w: World, fx: Fx, e: Expr, scope: seq<Sym>, st: Store, tr: Trace, fuel: nat): (r: Res)
    ensures r.Ok? ==> |r.ps| >= 1
  {
    if Effective(e, scope, fx.reg) == e then Pushes(w, fx, e, st, tr, fuel) else PushBare(w, fx, e, st, tr, fuel)
  }

  function Kept(r: Res): StmtRes {
    if r.Ok? then Norm(r.ps, r.st, r.tr) else Abrupt(r)
  }

  /** A line: `leak` is what its statements leave on the stack, in order. `reg`
      is the registry each statement was compiled against. */
  function ExecLine(w: World, stmts: seq<Stmt>, scope: seq<Sym>, reg: seq<Fn>, st: Store, tr: Trace, fuel: nat): StmtRes
    decreases |stmts|
  {
    if |stmts| == 0 then Norm([], st, tr)
    else
      var keep := |stmts| == 1 && HasValue(stmts[0], scope, reg);
      match ExecTop(w, Fx("<line>", reg), stmts[0], keep, scope, st, tr, fuel)
      case Norm(l, st1, tr1) =>
        After(l, ExecLine(w, stmts[1..], SymsAfter(stmts[0], scope), RegAfter(stmts[0], reg), st1, tr1, fuel))
      case r => r
  }

  ghost predicate LineAt(s: Site, stmts: seq<Stmt>, scope: seq<Sym>, ss: seq<string>, limit: nat, pc: nat,
      locals: seq<u64>, st: Store) {
    && SiteOk(s)
    && s.cx.callers == [] && s.cx.fn.name == "<line>"
    && LineOk(stmts, scope, s.env.reg, limit)
    && |scope| <= MAX_LOCALS
    && SymsLe(LineSyms(stmts, scope), s.env.syms)
    && LineStrs(stmts, scope, s.env.reg, ss) <= s.env.strs
    && NamesGrow(RegsAfter(stmts, s.env.reg), Now(s.w, s.since).m.reg)
    && At(s.cx.fn.code, pc, LineCode(stmts, scope, s.env.syms, s.env.strs, s.env.reg, pc))
    && LocalsOk(locals, s.env.syms, st)
  }

  lemma {:induction false} LineSymsGrow(stmts: seq<Stmt>, scope: seq<Sym>, reg: seq<Fn>, limit: nat)
    requires LineOk(stmts, scope, reg, limit) && |scope| <= MAX_LOCALS
    ensures SymsLe(scope, LineSyms(stmts, scope)) && |LineSyms(stmts, scope)| <= MAX_LOCALS
    decreases |stmts|
  {
    hide FnAccepted, StmtOk, SymsAfter, RegAfter, SymsLe, Slot;
    if |stmts| == 0 {
      SymsLeRefl(scope);
    } else {
      var sc := SymsAfter(stmts[0], scope);
      TopGrow(stmts[0], scope, reg, limit);
      LineSymsGrow(stmts[1..], sc, RegAfter(stmts[0], reg), limit);
      SymsLeTrans(scope, sc, LineSyms(stmts, scope));
    }
  }

  lemma TopGrow(s: Stmt, scope: seq<Sym>, reg: seq<Fn>, limit: nat)
    requires TopOk(s, scope, reg, limit) && |scope| <= MAX_LOCALS
    ensures SymsLe(scope, SymsAfter(s, scope)) && |SymsAfter(s, scope)| <= MAX_LOCALS
  {
    hide FnAccepted, StmtOk, SymsLe, Slot;
    if s.FuncDecl? {
      SymsLeRefl(scope);
    } else {
      SymsGrow(s, scope, reg, false);
    }
  }

  /** A function's name alone is the call with no arguments. */
  lemma BareIsCall(w: World, fx: Fx, v: Expr, st: Store, tr: Trace, fuel: nat)
    requires v.Var?
    ensures PushBare(w, fx, v, st, tr, fuel) == Pushes(w, fx, Call(v.name, []), st, tr, fuel)
  {
    hide CallFn, Pads;
    assert PushAll(w, fx, [], st, tr, fuel) == Ok([], st, tr);
    var pads := Pads(fx.reg, v.name, 0);
    assert [] + pads == pads;
    assert pads[0..] == pads;
    assert pads[..0] == [];
  }

  lemma PushEffectiveEq(w: World, fx: Fx, e: Expr, scope: seq<Sym>, st: Store, tr: Trace, fuel: nat)
    ensures PushEffective(w, fx, e, scope, st, tr, fuel) == Pushes(w, fx, Effective(e, scope, fx.reg), st, tr, fuel)
  {
    hide Pushes, PushBare, Slot, Lookup;
    if Effective(e, scope, fx.reg) != e {
      BareIsCall(w, fx, e, st, tr, fuel);
    }
  }

  /** What is known of a top-level statement about to run. */
  ghost predicate TopAt(s: Site, t: Stmt, keep: bool, scope: seq<Sym>, pc: nat, locals: seq<u64>, st: Store) {
    && SiteOk(s)
    && (t.FuncDecl? || StmtIn(s, t, scope, false))
    && At(s.cx.fn.code, pc, TopCode(t, keep, scope, s.env, pc))
    && LocalsOk(locals, s.env.syms, st)
  }

  lemma SimTop(s: Site, t: Stmt, keep: bool, scope: seq<Sym>, pc: nat, locals: seq<u64>, ops: seq<u64>, st: Store,
      tr: Trace, fuel: nat)
    returns (n: nat, locals': seq<u64>)
    requires s.since <= tr
    requires TopAt(s, t, keep, scope, pc, locals, st)
    ensures StmtMatch(s, Conf(s.cx, pc, locals, ops, tr), n, pc + |TopCode(t, keep, scope, s.env, pc)|, locals', ops,
                      ExecTop(s.w, FxOf(s), t, keep, scope, st, tr, fuel), fuel)
  {
    hide Enc, Conf, Steps, LocalsOk, Slot, WorldsOk, Now, NamesGrow, At, Pushes, PushBare, ExprCode, ExprOk, HasStrs,
      SymsLe;
    if t.FuncDecl? {
      n, locals' := 0, locals;
      StepsZero(s.w.m, Conf(s.cx, pc, locals, ops, tr));
      assert ops + [] == ops;
    } else if keep && t.ExprStmt? {
      var e := ExprStmtEq(s, t, scope, false, pc, st, tr, fuel);
      ExprHere(s, e, scope);
      PushEffectiveEq(s.w, FxOf(s), t.e, scope, st, tr, fuel);
      n, locals' := SimExpr(s, e, pc, locals, ops, st, tr, fuel);
    } else {
      hide StmtIn, StmtCode, ExecStmt;
      n, locals' := SimStmt(s, t, scope, false, pc, locals, ops, st, tr, fuel);
    }
  }

  lemma LineParts(s: Site, stmts: seq<Stmt>, scope: seq<Sym>, ss: seq<string>, limit: nat, pc: nat, locals: seq<u64>,
      st: Store)
    returns (keep: bool, s1: Site, ss1: seq<string>, pc1: nat)
    requires LineAt(s, stmts, scope, ss, limit, pc, locals, st) && |stmts| > 0
    ensures keep == (|stmts| == 1 && HasValue(stmts[0], scope, s.env.reg))
    ensures TopAt(s, stmts[0], keep, scope, pc, locals, st)
    ensures s1 == s.(env := s.env.(reg := RegAfter(stmts[0], s.env.reg)))
    ensures pc1 == pc + |TopCode(stmts[0], keep, scope, s.env, pc)|
    ensures forall l, st1 :: LocalsOk(l, s.env.syms, st1) ==>
              LineAt(s1, stmts[1..], SymsAfter(stmts[0], scope), ss1, limit, pc1, l, st1)
    ensures LineCode(stmts, scope, s.env.syms, s.env.strs, s.env.reg, pc) ==
            TopCode(stmts[0], keep, scope, s.env, pc) +
            LineCode(stmts[1..], SymsAfter(stmts[0], scope), s.env.syms, s.env.strs, RegAfter(stmts[0], s.env.reg), pc1)
  {
    hide Enc, LocalsOk, Slot, WorldsOk, Now, At, StmtOk, SymsAfter, StmtHas, StmtStrs, TopCode, SymsLe, RegAfter,
      FnAccepted, HasValue;
    var t, sc, reg1 := stmts[0], SymsAfter(stmts[0], scope), RegAfter(stmts[0], s.env.reg);
    keep := |stmts| == 1 && HasValue(t, scope, s.env.reg);
    var c := TopCode(t, keep, scope, s.env, pc);
    pc1 := pc + |c|;
    s1 := s.(env := s.env.(reg := reg1));
    ss1 := StmtStrs(t, scope, s.env.reg, ss);
    AtSplit(s.cx.fn.code, pc, c, LineCode(stmts[1..], sc, s.env.syms, s.env.strs, reg1, pc1));
    TopGrow(t, scope, s.env.reg, limit);
    LineSymsGrow(stmts[1..], sc, reg1, limit);
    SymsLeTrans(sc, LineSyms(stmts[1..], sc), s.env.syms);
    StmtStrsGrow(t, scope, s.env.reg, ss);
    LineStrsGrow(stmts[1..], sc, reg1, ss1);
    StmtHasMono(t, scope, s.env.reg, ss1, s.env.strs);
    RegsGrow(stmts[1..], reg1);
    NamesGrowTrans(reg1, RegsAfter(stmts, s.env.reg), Now(s.w, s.since).m.reg);
  }

  /** How a run realises a whole line: it halts with the line's leavings on the
      stack above the locals, or fails as the line does, or goes on. */
  ghost predicate LineMatch(s: Site, vm: Vm, n: nat, ops: seq<u64>, r: StmtRes, fuel: nat) {
    var o := Steps(s.w.m, vm, n);
    || Excused(o)
    || (match r
        case Norm(leak, st, tr) =>
          o.Halted? && o.vm.trace == tr && exists locals ::
            LocalsOk(locals, s.env.syms, st) && o.vm.stack == s.cx.below + (locals + (ops + leak))
        case Returned(_, _) => false
        case StmtErr(e, tr) => o == Failed(e, tr) && IsRuntime(e)
        case StmtTimeout => o.Run? && n >= fuel)
  }

  lemma SimHalt(s: Site, vm: Vm, n: nat, pc: nat, locals: seq<u64>, ops: seq<u64>, st: Store, tr: Trace, fuel: nat)
    requires At(s.cx.fn.code, pc, Enc(Halt)) && Reached(s, vm, n, pc, locals, ops, tr)
      && LocalsOk(locals, s.env.syms, st)
    ensures LineMatch(s, vm, n + 1, ops, Norm([], st, tr), fuel)
  {
    hide Enc, Steps, LocalsOk, Step;
    ConfFetch(s.w.m, s.cx, pc, locals, ops, tr, Halt);
    StepsThen(s.w.m, vm, n, Conf(s.cx, pc, locals, ops, tr), 1);
    StepsOne(s.w.m, Conf(s.cx, pc, locals, ops, tr));
    assert ops + [] == ops;
  }

  lemma {:induction false} SimLine(s: Site, stmts: seq<Stmt>, scope: seq<Sym>, ss: seq<string>, limit: nat, pc: nat,
                                   locals: seq<u64>, ops: seq<u64>, st: Store, tr: Trace, fuel: nat)
    returns (n: nat)
    requires s.since <= tr
    requires LineAt(s, stmts, scope, ss, limit, pc, locals, st)
    ensures LineMatch(s, Conf(s.cx, pc, locals, ops, tr), n, ops,
                      ExecLine(s.w, stmts, scope, s.env.reg, st, tr, fuel), fuel)
    decreases |stmts|
  {
    hide Enc, Conf, Steps, LocalsOk, Slot, WorldsOk, Now, NamesGrow, At, SymsAfter, TopCode, SymsLe, RegAfter, HasValue,
      ExecTop, SiteOk;
    var vm := Conf(s.cx, pc, locals, ops, tr);
    StepsZero(s.w.m, vm);
    if |stmts| == 0 {
      SimHalt(s, vm, 0, pc, locals, ops, st, tr, fuel);
      n := 1;
      return;
    }
    var keep, s1, ss1, pc1 := LineParts(s, stmts, scope, ss, limit, pc, locals, st);
    var r := ExecTop(s.w, FxOf(s), stmts[0], keep, scope, st, tr, fuel);
    var l1;
    n, l1 := SimTop(s, stmts[0], keep, scope, pc, locals, ops, st, tr, fuel);
    if Excused(Steps(s.w.m, vm, n)) || !r.Norm? {
      return;
    }
    var k := SimLine(s1, stmts[1..], SymsAfter(stmts[0], scope), ss1, limit, pc1, l1, ops + r.leak, r.st, r.tr, fuel);
    LineAfter(s, vm, n, pc1, l1, ops, r.leak, r.tr, k,
              ExecLine(s.w, stmts[1..], SymsAfter(stmts[0], scope), s1.env.reg, r.st, r.tr, fuel), fuel);
    n := n + k;
  }

  lemma LineAfter(s: Site, vm: Vm, n: nat, pc: nat, l1: seq<u64>, ops: seq<u64>, leak: seq<u64>, tr: Trace, k: nat,
      r: StmtRes, fuel: nat)
    requires Reached(s, vm, n, pc, l1, ops + leak, tr)
    requires LineMatch(s, Conf(s.cx, pc, l1, ops + leak, tr), k, ops + leak, r, fuel)
    ensures LineMatch(s, vm, n + k, ops, After(leak, r), fuel)
  {
    hide Steps, Conf, LocalsOk;
    StepsThen(s.w.m, vm, n, Conf(s.cx, pc, l1, ops + leak, tr), k);
    if r.Norm? {
      assert (ops + leak) + r.leak == ops + (leak + r.leak);
    }
  }

  // ---- the main results ----

  function LineSite(stmts: seq<Stmt>, w: World, tr: Trace): Site {
    var f := LineFn(stmts, w.m.reg);
    Site(WorldAfterAll(stmts, w), Cx(f, [], []), Env(LineSyms(stmts, []), f.strings, w.m.reg), tr)
  }

  /** What an accepted line means in its session. */
  function LineResult(stmts: seq<Stmt>, w: World, tr: Trace, fuel: nat): StmtRes {
    ExecLine(WorldAfterAll(stmts, w), stmts, [], w.m.reg, map[], tr, fuel)
  }

  function RunLine(stmts: seq<Stmt>, w: World, tr: Trace, n: nat): Outcome {
    Steps(WorldAfterAll(stmts, w).m, Start(LineFn(stmts, w.m.reg), tr), n)
  }

  lemma ZerosOk(syms: seq<Sym>)
    ensures LocalsOk(Zeros(|syms|), syms, map[])
  {
  }

  /** Compiler correctness for a whole line: the bytes of the line, run from the
      VM's initial state in the session the line leaves behind, realise exactly
      what its statements say. */
  lemma LineCorrect(stmts: seq<Stmt>, w: World, limit: nat, tr: Trace, fuel: nat) returns (n: nat)
    requires WorldOk(w) && LineAccepted(stmts, w.m.reg, limit) && limit <= C.MAX_CODE && NewsOk(w.m, limit)
    ensures LineMatch(LineSite(stmts, w, tr), Start(LineFn(stmts, w.m.reg), tr), n, [], LineResult(stmts, w, tr, fuel),
      fuel)
  {
    hide Enc, LineCode, WorldOk, LineOk, LocalsOk, SymsLe, NamesGrow, Steps, ExecLine, Slot;
    var s, f := LineSite(stmts, w, tr), LineFn(stmts, w.m.reg);
    WorldKeptAll(stmts, w, [], limit);
    NewsKeep(s.w, limit);
    StartGrown(s.w, tr);
    NamesGrowTrans(w.m.reg, s.w.m.reg, Now(s.w, tr).m.reg);
    LineSymsGrow(stmts, [], w.m.reg, limit);
    SymsLeRefl(s.env.syms);
    ZerosOk(s.env.syms);
    WholeAt(f.code);
    assert [] + (Zeros(f.nlocals) + []) == Zeros(f.nlocals);
    assert Start(f, tr) == Conf(s.cx, 0, Zeros(f.nlocals), [], tr);
    n := SimLine(s, stmts, [], [], limit, 0, Zeros(f.nlocals), [], map[], tr, fuel);
  }

  /** Bytecode safety: at no point of any run of an accepted line does the VM
      meet an unknown or cut-off instruction, run off the end, underflow its
      stack, touch a bad slot or string, return at top level, or fail to find a
      function. Besides the program's own runtime errors only a full stack is
      left, or a builtin that frees the code of a running function (`Reentry`
      says exactly when). */
  lemma LineSafe(stmts: seq<Stmt>, w: World, limit: nat, tr: Trace, n: nat)
    requires WorldOk(w) && LineAccepted(stmts, w.m.reg, limit) && limit <= C.MAX_CODE && NewsOk(w.m, limit)
    ensures var o := RunLine(stmts, w, tr, n);
      o.Failed? ==> IsExcuse(o.err) || IsRuntime(o.err)
  {
    hide WorldOk, LineAccepted, LocalsOk, ExecLine, LineFn, Start;
    var k := LineCorrect(stmts, w, limit, tr, n + 1);
    var m, vm := WorldAfterAll(stmts, w).m, Start(LineFn(stmts, w.m.reg), tr);
    if k <= n {
      StepsPrefix(m, vm, k, n);
    } else {
      StepsPrefix(m, vm, n, k);
    }
  }

  lemma HaltedShape(s: Site, vm: Vm, n: nat, r: StmtRes, fuel: nat)
    requires LineMatch(s, vm, n, [], r, fuel) && s.cx.below == [] && Steps(s.w.m, vm, n).Halted?
    ensures var o := Steps(s.w.m, vm, n);
      && r.Norm? && o.vm.trace == r.tr
      && |o.vm.stack| == |s.env.syms| + |r.leak|
      && o.vm.stack[|s.env.syms|..] == r.leak
  {
    hide Steps, Slot;
    var o := Steps(s.w.m, vm, n);
    var locals :| LocalsOk(locals, s.env.syms, r.st) && o.vm.stack == [] + (locals + ([] + r.leak));
  }

  /** The converse of `LineCorrect`: if the VM halts after n steps, the line does
      finish, with that trace and those values on the stack. Together: the VM
      halts exactly on the lines that finish, unless it is stopped by a full
      stack or freed code. */
  lemma LineHalts(stmts: seq<Stmt>, w: World, limit: nat, tr: Trace, n: nat)
    requires WorldOk(w) && LineAccepted(stmts, w.m.reg, limit) && limit <= C.MAX_CODE && NewsOk(w.m, limit)
    requires RunLine(stmts, w, tr, n).Halted?
    ensures var r, o := LineResult(stmts, w, tr, n + 1), RunLine(stmts, w, tr, n);
      && r.Norm? && o.vm.trace == r.tr
      && |o.vm.stack| == |LineSyms(stmts, [])| + |r.leak|
      && o.vm.stack[|LineSyms(stmts, [])|..] == r.leak
  {
    hide WorldOk, LineAccepted, ExecLine, LineFn, Start, Slot, LineMatch, LineCode, LineStrs, RegsAfter, LineOk,
      LineKeeps, Step;
    var k := LineCorrect(stmts, w, limit, tr, n + 1);
    var m, vm := WorldAfterAll(stmts, w).m, Start(LineFn(stmts, w.m.reg), tr);
    if k <= n {
      StepsPrefix(m, vm, k, n);
    } else {
      StepsPrefix(m, vm, n, k);
    }
    StillRunning(LineSite(stmts, w, tr), vm, k, [], LineResult(stmts, w, tr, n + 1), n + 1);
    HaltedShape(LineSite(stmts, w, tr), vm, k, LineResult(stmts, w, tr, n + 1), n + 1);
  }

  lemma StillRunning(s: Site, vm: Vm, n: nat, ops: seq<u64>, r: StmtRes, fuel: nat)
    requires LineMatch(s, vm, n, ops, r, fuel)
    ensures Steps(s.w.m, vm, n).Run? ==> n >= fuel
  {
    hide Steps;
  }
}
