/** One REPL line from source tree to printed value: compile, run, and take the
    result, end to end. */
module Shell {
  import opened Wrappers
  import opened Word
  import opened Ast
  import opened Bytecode
  import opened CodeGen
  import opened Linking
  import opened Vm
  import opened Config
  import opened Compiled
  import opened Simulation
  import opened Session
  import opened Meaning
  import opened Agreement
  import opened VmClass
  import C = Compiler

  /** A line as documented: its statements in order, and the value of the
      expression it ends in, if it ends in one. */
  datatype LineAnswer =
    | Prints(value: Option<u64>, st: Store, tr: Trace)
    | LineDies(e: Error, tr: Trace)
    | LineRuns

  function OfEffect(r: Effect): LineAnswer {
    match r
    case Done(st, tr) => Prints(None, st, tr)
    case Yields(_, tr) => Prints(None, map[], tr)
    case Dies(e, tr) => LineDies(e, tr)
    case Runs => LineRuns
  }

  function OfAnswer(r: Answer): LineAnswer {
    match r
    case Gives(v, st, tr) => Prints(Some(v), st, tr)
    case Aborts(e, tr) => LineDies(e, tr)
    case Unfinished => LineRuns
  }

  function DoTop(w: World, fx: Fx, s: Stmt, keep: bool, scope: seq<Sym>, st: Store, tr: Trace, fuel: nat): LineAnswer {
    if keep && s.ExprStmt? then
      if Effective(s.e, scope, fx.reg) == s.e then OfAnswer(Eval(w, fx, s.e, st, tr, fuel))
      else if fuel == 0 || !s.e.Var? then LineRuns
      else OfAnswer(Apply(w, s.e.name, Pads(fx.reg, s.e.name, 0), st, tr, fuel - 1))
    else OfEffect(Do(w, fx, s, scope, st, tr, fuel))
  }

  function DoLine(w: World, stmts: seq<Stmt>, scope: seq<Sym>, reg: seq<Fn>, st: Store, tr: Trace,
      fuel: nat): LineAnswer
    decreases |stmts|
  {
    if |stmts| == 0 then Prints(None, st, tr)
    else
      var keep := |stmts| == 1 && HasValue(stmts[0], scope, reg);
      match DoTop(w, Fx("<line>", reg), stmts[0], keep, scope, st, tr, fuel)
      case Prints(v, st1, tr1) =>
        if |stmts| == 1 then Prints(v, st1, tr1)
        else DoLine(w, stmts[1..], SymsAfter(stmts[0], scope), RegAfter(stmts[0], reg), st1, tr1, fuel)
      case r => r
  }

  function AsLine(r: LineAnswer): StmtRes {
    match r
    case Prints(v, st, tr) => Norm(if v.Some? then [v.value] else [], st, tr)
    case LineDies(e, tr) => StmtErr(e, tr)
    case LineRuns => StmtTimeout
  }

  lemma AgreeTop(w: World, fx: Fx, s: Stmt, keep: bool, scope: seq<Sym>, st: Store, tr: Trace, fuel: nat)
    requires WorldLeakFree(w) && StmtLeakFree(s) && !Do(w, fx, s, scope, st, tr, fuel).Yields?
    ensures ExecTop(w, fx, s, keep, scope, st, tr, fuel) == AsLine(DoTop(w, fx, s, keep, scope, st, tr, fuel))
    ensures var r := DoTop(w, fx, s, keep, scope, st, tr, fuel);
      r.Prints? && r.value.Some? ==> keep && s.ExprStmt?
  {
    hide Pushes, PushBare, Eval, Apply, LeakFree, WorldLeakFree, Slot, SymsAfter, Effective, Pads, Do, ExecStmt;
    AgreeStmt(w, fx, s, scope, st, tr, fuel);
    if keep && s.ExprStmt? {
      BareIsVar(s.e, scope, fx.reg);
      if Effective(s.e, scope, fx.reg) == s.e {
        AgreeExpr(w, fx, s.e, st, tr, fuel);
      } else {
        AgreeBare(w, fx, s.e, st, tr, fuel);
      }
    }
  }

  /** Only a `return` yields, and there is none at top level. */
  lemma {:induction false} NoYield(w: World, fx: Fx, s: Stmt, scope: seq<Sym>, reg: seq<Fn>, st: Store, tr: Trace,
      fuel: nat)
    requires StmtOk(s, scope, reg, false)
    ensures !Do(w, fx, s, scope, st, tr, fuel).Yields?
    decreases fuel, s, 3
  {
    hide Eval, Apply, DoLoop, ExprOk, Slot, SymsAfter, Pads, Effective;
    match s
    case Block(ss) => NoYieldAll(w, fx, ss, scope, reg, st, tr, fuel);
    case If(c, t, els) =>
      var r := Eval(w, fx, c, st, tr, fuel);
      if r.Gives? {
        NoYield(w, fx, t, scope, reg, r.st, r.tr, fuel);
        if els.Some? {
          NoYield(w, fx, els.value, SymsAfter(t, scope), reg, r.st, r.tr, fuel);
        }
      }
    case While(c, b) =>
      var r := Eval(w, fx, c, st, tr, fuel);
      if r.Gives? && fuel > 0 {
        NoYield(w, fx, b, scope, reg, r.st, r.tr, fuel);
        var d := Do(w, fx, b, scope, r.st, r.tr, fuel);
        if d.Done? {
          NoYield(w, fx, s, scope, reg, d.st, d.tr, fuel - 1);
        }
      }
    case For(start, _, _, _) =>
      var r := DoStart(w, fx, start, st, tr, fuel);
      if r.Done? {
        NoYieldLoop(w, fx, s, StartSyms(start, scope), reg, r.st, r.tr, fuel);
      }
    case _ =>
  }

  lemma {:induction false} NoYieldLoop(w: World, fx: Fx, s: Stmt, sc: seq<Sym>, reg: seq<Fn>, st: Store, tr: Trace,
      fuel: nat)
    requires s.For? && StmtOk(s.loop, sc, reg, false)
    ensures !DoLoop(w, fx, s, sc, st, tr, fuel).Yields?
    decreases fuel, s, 2
  {
    hide Eval, ExprOk, Slot, SymsAfter, Do, StmtOk;
    var r := if s.test.Some? then Eval(w, fx, s.test.value, st, tr, fuel) else Gives(1, st, tr);
    if r.Gives? && fuel > 0 {
      NoYield(w, fx, s.loop, sc, reg, r.st, r.tr, fuel);
      var d := Do(w, fx, s.loop, sc, r.st, r.tr, fuel);
      if d.Done? {
        var e := if s.post.None? then Done(d.st, d.tr) else Forget(Eval(w, fx, s.post.value, d.st, d.tr, fuel));
        if e.Done? {
          NoYieldLoop(w, fx, s, sc, reg, e.st, e.tr, fuel - 1);
        }
      }
    }
  }

  lemma {:induction false} NoYieldAll(w: World, fx: Fx, ss: seq<Stmt>, scope: seq<Sym>, reg: seq<Fn>, st: Store,
      tr: Trace, fuel: nat)
    requires StmtsOk(ss, scope, reg, false)
    ensures !DoAll(w, fx, ss, scope, st, tr, fuel).Yields?
    decreases fuel, ss, 0
  {
    hide Do, StmtOk, SymsAfter;
    if |ss| > 0 {
      NoYield(w, fx, ss[0], scope, reg, st, tr, fuel);
      var d := Do(w, fx, ss[0], scope, st, tr, fuel);
      if d.Done? {
        NoYieldAll(w, fx, ss[1..], SymsAfter(ss[0], scope), reg, d.st, d.tr, fuel);
      }
    }
  }

  lemma {:induction false} AgreeLine(w: World, stmts: seq<Stmt>, scope: seq<Sym>, reg: seq<Fn>, limit: nat, st: Store,
      tr: Trace, fuel: nat)
    requires WorldLeakFree(w) && StmtsLeakFree(stmts) && LineOk(stmts, scope, reg, limit)
    ensures ExecLine(w, stmts, scope, reg, st, tr, fuel) == AsLine(DoLine(w, stmts, scope, reg, st, tr, fuel))
    ensures var r := DoLine(w, stmts, scope, reg, st, tr, fuel);
      r.Prints? ==> r.value.Some? == LineKeeps(stmts, scope, reg)
    decreases |stmts|
  {
    hide StmtLeakFree, WorldLeakFree, SymsAfter, RegAfter, ExecTop, Do, StmtOk, FnAccepted, After, Eval, Apply, Pads,
      Effective, Slot;
    if |stmts| > 0 {
      var fx := Fx("<line>", reg);
      var keep := |stmts| == 1 && HasValue(stmts[0], scope, reg);
      if !stmts[0].FuncDecl? {
        NoYield(w, fx, stmts[0], scope, reg, st, tr, fuel);
      } else {
        DeclDone(w, fx, stmts[0], scope, st, tr, fuel);
      }
      AgreeTop(w, fx, stmts[0], keep, scope, st, tr, fuel);
      KeepPrints(w, fx, stmts[0], keep, scope, st, tr, fuel);
      var r := DoTop(w, fx, stmts[0], keep, scope, st, tr, fuel);
      if r.Prints? {
        var rest := ExecLine(w, stmts[1..], SymsAfter(stmts[0], scope), RegAfter(stmts[0], reg), r.st, r.tr, fuel);
        if |stmts| == 1 {
          LastLine(w, stmts, scope, reg, st, tr, fuel);
        } else {
          AgreeLine(w, stmts[1..], SymsAfter(stmts[0], scope), RegAfter(stmts[0], reg), limit, r.st, r.tr, fuel);
          AfterNothing(rest);
        }
      }
    }
  }

  lemma DeclDone(w: World, fx: Fx, s: Stmt, scope: seq<Sym>, st: Store, tr: Trace, fuel: nat)
    requires s.FuncDecl?
    ensures Do(w, fx, s, scope, st, tr, fuel) == Done(st, tr)
  {
  }

  lemma KeepPrints(w: World, fx: Fx, s: Stmt, keep: bool, scope: seq<Sym>, st: Store, tr: Trace, fuel: nat)
    ensures var r := DoTop(w, fx, s, keep, scope, st, tr, fuel);
      r.Prints? ==> r.value.Some? == (keep && s.ExprStmt?)
  {
    hide Eval, Apply, Do, Effective, Pads;
  }

  lemma LastLine(w: World, stmts: seq<Stmt>, scope: seq<Sym>, reg: seq<Fn>, st: Store, tr: Trace, fuel: nat)
    requires |stmts| == 1
    ensures ExecLine(w, stmts, scope, reg, st, tr, fuel) ==
            ExecTop(w, Fx("<line>", reg), stmts[0], HasValue(stmts[0], scope, reg), scope, st, tr, fuel)
  {
    hide ExecTop, HasValue, SymsAfter, RegAfter;
    var r := ExecTop(w, Fx("<line>", reg), stmts[0], HasValue(stmts[0], scope, reg), scope, st, tr, fuel);
    if r.Norm? {
      assert r.leak + [] == r.leak;
    }
  }

  // ---- end to end ----

  /** Does the session the line leaves behind stay in the leak-free part? */
  ghost predicate Documented(stmts: seq<Stmt>, w: World) {
    StmtsLeakFree(stmts) && WorldLeakFree(WorldAfterAll(stmts, w))
  }

  function LineMeaning(stmts: seq<Stmt>, w: World, tr: Trace, fuel: nat): LineAnswer {
    DoLine(WorldAfterAll(stmts, w), stmts, [], w.m.reg, map[], tr, fuel)
  }

  function Leaves(d: LineAnswer): seq<u64> {
    if d.Prints? && d.value.Some? then [d.value.value] else []
  }

  /** Meaning preservation for whole lines without `&&`, `||` and prefix `++`/`--`:
      if the VM halts on the compiled line, the documented semantics finishes it
      with the same builtin calls, the value printed is the documented value of
      its last expression, and nothing else is left on the stack. */
  lemma LineMeans(stmts: seq<Stmt>, w: World, limit: nat, tr: Trace, n: nat)
    requires WorldOk(w) && LineAccepted(stmts, w.m.reg, limit) && limit <= C.MAX_CODE && NewsOk(w.m, limit)
      && Documented(stmts, w)
    requires RunLine(stmts, w, tr, n).Halted?
    ensures var d, o := LineMeaning(stmts, w, tr, n + 1), RunLine(stmts, w, tr, n);
      && d.Prints? && d.tr == o.vm.trace
      && d.value.Some? == LineKeeps(stmts, [], w.m.reg)
      && |o.vm.stack| == |LineSyms(stmts, [])| + |Leaves(d)|
      && o.vm.stack[|LineSyms(stmts, [])|..] == Leaves(d)
  {
    hide WorldOk, ExecLine, DoLine, LineOk, WorldLeakFree, StmtsLeakFree, RunLine, LineKeeps, LineSyms;
    LineHalts(stmts, w, limit, tr, n);
    AgreeLine(WorldAfterAll(stmts, w), stmts, [], w.m.reg, limit, map[], tr, n + 1);
  }

  /** Conversely: a line the documented semantics finishes halts the VM, unless
      the VM's stacks overflow or running code is freed; one that dies, dies of
      the same error. */
  lemma LineMeansConverse(stmts: seq<Stmt>, w: World, limit: nat, tr: Trace, fuel: nat) returns (n: nat)
    requires WorldOk(w) && LineAccepted(stmts, w.m.reg, limit) && limit <= C.MAX_CODE && NewsOk(w.m, limit)
      && Documented(stmts, w)
    ensures var d, o := LineMeaning(stmts, w, tr, fuel), RunLine(stmts, w, tr, n);
      || Excused(o)
      || (match d
          case Prints(_, _, tr1) => o.Halted? && o.vm.trace == tr1
          case LineDies(e, tr1) => o == Failed(e, tr1)
          case LineRuns => o.Run? && n >= fuel)
  {
    hide WorldOk, ExecLine, DoLine, LineOk, WorldLeakFree, StmtsLeakFree, LineKeeps, LineSyms, LineFn, Start, LocalsOk,
      Steps;
    n := LineCorrect(stmts, w, limit, tr, fuel);
    AgreeLine(WorldAfterAll(stmts, w), stmts, [], w.m.reg, limit, map[], tr, fuel);
  }

  datatype Report = Rejected | Ran(status: Status, printed: Option<u64>)

  /** Only a value other than 0 is printed. */
  function Shown(v: Option<u64>): Option<u64> { if v == Some(0) then None else v }

  /** Compile a line and run it, watching the keyboard for `turns` turns. It is
      rejected exactly when the compiler refuses it; once running it can only
      finish, be interrupted, overflow, fail by what it computes, or lose running
      code to a builtin's redefinition; and in the
      leak-free part what it prints is the documented value, unless that is 0. */
  method ExecuteLine(stmts: seq<Stmt>, m: Machine, ghost defs: seq<FnDef>, limit: nat, turns: nat) returns (r: Report)
    requires WorldOk(World(m, defs)) && limit <= C.MAX_CODE && NewsOk(m, limit) && ParamsFit(stmts)
    ensures r.Rejected? <==> !LineAccepted(stmts, m.reg, limit)
    ensures r.Ran? ==> match r.status
      case Finished => true
      case Interrupted => true
      case Stopped(e) => IsExcuse(e) || IsRuntime(e)
      case Running => false
    ensures r.Ran? && r.status != Finished ==> r.printed == None
    ensures r.Ran? && r.status == Finished && Documented(stmts, World(m, defs)) ==>
      var d := LineMeaning(stmts, World(m, defs), [], turns + 1);
      d.Prints? && r.printed == Shown(d.value)
  {
    hide WorldOk, ExecLine, DoLine, LineOk, WorldLeakFree, StmtsLeakFree, LineKeeps, LineSyms, LineStrs, LineCode,
      Steps, RegsAfter;
    ghost var w := World(m, defs);
    var c := new C.Compiler(m.reg, [], false, limit);
    var ok := c.CompileLine(stmts);
    if !ok {
      return Rejected;
    }
    var f := Fn("<line>", None, false, VOID, 0, [], |c.syms|, c.strings, c.code);
    assert f == LineFn(stmts, m.reg);
    LineSetUp(stmts, w, limit);
    var vm := new VirtualMachine(m.(reg := c.reg));
    forall k | 0 <= k <= turns ensures Checked(Steps(vm.m, Vm(Zeros(f.nlocals), [Frame(f, 0, 0)], []), k)) {
      LineSafe(stmts, w, limit, [], k);
    }
    var status, result := vm.RunChunk(f, c.lastExpr, turns);
    LineSafe(stmts, w, limit, [], turns);
    if RunLine(stmts, w, [], turns).Halted? && Documented(stmts, w) {
      LineMeans(stmts, w, limit, [], turns);
    }
    return Ran(status, Shown(result));
  }

  lemma LineSetUp(stmts: seq<Stmt>, w: World, limit: nat)
    requires WorldOk(w) && LineAccepted(stmts, w.m.reg, limit) && limit <= C.MAX_CODE && NewsOk(w.m, limit)
    ensures WorldAfterAll(stmts, w).m == w.m.(reg := RegsAfter(stmts, w.m.reg))
    ensures |LineSyms(stmts, [])| <= MAX_LOCALS
  {
    hide WorldOk, LineOk, RegsAfter, LineCode, LineStrs;
    WorldKeptAll(stmts, w, [], limit);
    LineSymsGrow(stmts, [], w.m.reg, limit);
  }
}
