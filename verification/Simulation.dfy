/** The bytes the compiler emits, run by the VM, do what `Compiled` says. The
    relation is exact: a finished evaluation is a run to the end of the code with
    exactly those values on the operand stack and everything below untouched; an
    error is that error; a timeout at fuel f is a run of at least f steps that is
    still going. The only other outcomes are that the VM's fixed stacks overflow,
    or that a builtin frees the code of a running function. */
module Simulation {
  import opened Wrappers
  import opened Word
  import opened Ast
  import opened Bytecode
  import opened CodeGen
  import opened CodeGenFacts
  import opened Linking
  import opened Vm
  import opened Config
  import opened Compiled

  /** Where a piece of code sits: the world, the running frame, and the tables
      of the function it was compiled in. */
  datatype Site = Site(w: World, cx: Cx, env: Env, since: Trace)

  /** Every registered function is a builtin or the code of its source. */
  ghost predicate WorldOk(w: World) {
    && |w.defs| == |w.m.reg|
    && forall i :: 0 <= i < |w.m.reg| && w.m.reg[i].builtin.None? ==> DefOk(w.defs[i], w.m.reg[i], w.m.reg)
  }

  /** Whatever builtins define on the way. */
  ghost predicate WorldsOk(w: World) {
    && (forall tr: Trace :: WorldOk(Now(w, tr)))
    && (forall tr: Trace, ev: Event :: NamesGrow(Now(w, tr).m.reg, Now(w, tr + [ev]).m.reg))
  }

  lemma {:induction false} GrowAlong(w: World, a: Trace, b: Trace)
    requires WorldsOk(w) && a <= b
    ensures NamesGrow(Now(w, a).m.reg, Now(w, b).m.reg)
    decreases |b|
  {
    hide Now, WorldOk;
    if |a| < |b| {
      var c := b[..|b| - 1];
      assert b == c + [b[|b| - 1]];
      GrowAlong(w, a, c);
    } else {
      assert a == b;
    }
  }

  ghost predicate DefOk(d: FnDef, f: Fn, reg: seq<Fn>) {
    && d.Source? && d.decl.FuncDecl?
    && |d.decl.params| <= MAX_PARAMS
    && f == FnOf(d.decl, d.reg)
    && StmtsOk(d.decl.body, ParamSyms(d.decl.params), d.reg, true)
    && |f.strings| <= MAX_STRINGS
    && |f.code| < TWO32
    && NamesGrow(d.reg, reg)
  }

  ghost predicate SiteOk(s: Site) {
    && WorldsOk(s.w)
    && |s.env.syms| == s.cx.fn.nlocals <= MAX_LOCALS
    && s.env.strs == s.cx.fn.strings && |s.env.strs| <= MAX_STRINGS
    && |s.cx.fn.code| < TWO32
    && NamesGrow(s.env.reg, Now(s.w, s.since).m.reg)
  }

  function FxOf(s: Site): Fx {
    Fx(s.cx.fn.name, s.env.reg)
  }

  /** The local slots hold the store. */
  ghost predicate LocalsOk(locals: seq<u64>, syms: seq<Sym>, st: Store) {
    && |locals| == |syms|
    && forall x :: Slot(syms, x) >= 0 ==> locals[Slot(syms, x)] == Get(st, x)
  }

  /** The code of `e` is at `pc`, and the locals hold the store. */
  ghost predicate ExprAt(s: Site, e: Expr, pc: nat, locals: seq<u64>, st: Store) {
    ExprSite(s, e, pc) && LocalsOk(locals, s.env.syms, st)
  }

  ghost predicate ExprSite(s: Site, e: Expr, pc: nat) {
    && SiteOk(s)
    && ExprOk(e, s.env.syms, s.env.reg)
    && HasStrs(e, s.env.strs)
    && At(s.cx.fn.code, pc, ExprCode(e, s.env, pc))
  }

  predicate Excused(o: Outcome) {
    o.Failed? && IsExcuse(o.err)
  }

  /** `n` steps from `vm` realise the result `r` of an expression whose code
      ends at `end`, started above the operands `ops`. */
  ghost predicate ExprMatch(s: Site, vm: Vm, n: nat, end: nat, locals: seq<u64>, ops: seq<u64>, r: Res, fuel: nat) {
    var o := Steps(s.w.m, vm, n);
    || Excused(o)
    || (match r
        case Ok(ps, st, tr) => s.since <= tr && LocalsOk(locals, s.env.syms, st)
          && o == Run(Conf(s.cx, end, locals, ops + ps, tr))
        case Err(e, tr) => o == Failed(e, tr) && IsRuntime(e)
        case Timeout => o.Run? && n >= fuel)
  }

  lemma LocalsSize(locals: seq<u64>, syms: seq<Sym>, st: Store)
    requires LocalsOk(locals, syms, st)
    ensures |locals| == |syms|
  {
  }

  lemma LocalsFit(s: Site, locals: seq<u64>, st: Store)
    requires SiteOk(s) && LocalsOk(locals, s.env.syms, st)
    ensures |locals| == s.cx.fn.nlocals && |s.cx.fn.code| < TWO32
  {
  }

  lemma LocalsSet(locals: seq<u64>, syms: seq<Sym>, st: Store, x: string, v: u64)
    requires LocalsOk(locals, syms, st) && Slot(syms, x) >= 0
    ensures LocalsOk(locals[Slot(syms, x) := v], syms, st[x := v])
  {
    forall y | Slot(syms, y) >= 0 ensures locals[Slot(syms, x) := v][Slot(syms, y)] == Get(st[x := v], y) {
      if y != x {
        assert Slot(syms, y) != Slot(syms, x);
      }
    }
  }

  /** One more step of a run that has reached `pc` in this frame. */
  lemma Extend(s: Site, vm: Vm, n: nat, pc: nat, locals: seq<u64>, ops: seq<u64>, tr: Trace, i: Instr)
    requires Steps(s.w.m, vm, n) == Run(Conf(s.cx, pc, locals, ops, tr))
    requires At(s.cx.fn.code, pc, Enc(i)) && Ready(s.cx, i, locals, ops) && |locals| == s.cx.fn.nlocals
    ensures Steps(s.w.m, vm, n + 1) == ConfExec(s.w.m, s.cx, pc + |Enc(i)|, locals, ops, tr, i)
  {
    hide Step, Conf, ConfExec, Enc;
    var vm1 := Conf(s.cx, pc, locals, ops, tr);
    StepsThen(s.w.m, vm, n, vm1, 1);
    ConfStep(s.w.m, s.cx, pc, locals, ops, tr, i);
    assert Steps(s.w.m, vm1, 1) == Step(s.w.m, vm1) by {
      if Step(s.w.m, vm1).Run? {
        assert Steps(s.w.m, Step(s.w.m, vm1).vm, 0) == Step(s.w.m, vm1);
      }
    }
  }

  // ---- expressions ----

  lemma SimExpr(s: Site, e: Expr, pc: nat, locals: seq<u64>, ops: seq<u64>, st: Store, tr: Trace, fuel: nat)
    returns (n: nat, locals': seq<u64>)
    requires ExprAt(s, e, pc, locals, st)
    requires s.since <= tr
    ensures ExprMatch(s, Conf(s.cx, pc, locals, ops, tr), n, pc + |ExprCode(e, s.env, pc)|, locals', ops,
                      Pushes(s.w, FxOf(s), e, st, tr, fuel), fuel)
    decreases fuel, e, 2
  {
    hide Enc, Conf, Steps, LocalsOk, Slot, Alu, WorldsOk, Now, NamesGrow, ExprCode, Pushes, ExprOk, HasStrs, At,
      ExprMatch, ExprAt;
    match e
    case Lit(_) => n, locals' := SimPush(s, e, pc, locals, ops, st, tr, fuel);
    case StrLit(_) => n, locals' := SimPush(s, e, pc, locals, ops, st, tr, fuel);
    case Var(_) => n, locals' := SimPush(s, e, pc, locals, ops, st, tr, fuel);
    case Call(_, _) => n, locals' := SimCall(s, e, pc, locals, ops, st, tr, fuel);
    case Bin(_, _, _) => n, locals' := SimBin(s, e, pc, locals, ops, st, tr, fuel);
    case AndAnd(_, _) => n, locals' := SimLogic(s, e, pc, locals, ops, st, tr, fuel);
    case OrOr(_, _) => n, locals' := SimLogic(s, e, pc, locals, ops, st, tr, fuel);
    case Un(_, _) => n, locals' := SimUn(s, e, pc, locals, ops, st, tr, fuel);
    case PreInc(_, _) => n, locals' := SimPreInc(s, e, pc, locals, ops, st, tr, fuel);
    case PostInc(_, _) => n, locals' := SimPostInc(s, e, pc, locals, ops, st, tr, fuel);
    case Assign(_, _, _) => n, locals' := SimAssign(s, e, pc, locals, ops, st, tr, fuel);
  }

  lemma PushEq(s: Site, e: Expr, pc: nat, st: Store, tr: Trace, fuel: nat) returns (i: Instr)
    requires e.Lit? || e.StrLit? || e.Var?
    requires ExprOk(e, s.env.syms, s.env.reg) && HasStrs(e, s.env.strs)
    requires |s.env.strs| <= MAX_STRINGS && |s.env.syms| <= MAX_LOCALS
    ensures ExprCode(e, s.env, pc) == Enc(i)
    ensures match e
      case Lit(v) => i == Push(v) && Pushes(s.w, FxOf(s), e, st, tr, fuel) == Ok([v], st, tr)
      case StrLit(t) =>
        && i.PushStr? && i.si < |s.env.strs| && s.env.strs[i.si] == t
        && Pushes(s.w, FxOf(s), e, st, tr, fuel) == Ok([s.w.m.lit(s.cx.fn.name, t)], st, tr)
      case Var(x) =>
        && Slot(s.env.syms, x) >= 0 && i == Load(Slot(s.env.syms, x))
        && Pushes(s.w, FxOf(s), e, st, tr, fuel) == Ok([Get(st, x)], st, tr)
      case _ => true
  {
    hide Enc;
    i := match e case Lit(v) => Push(v)
                 case StrLit(t) => PushStr(ToU32(IndexOf(s.env.strs, t)))
                 case Var(x) => Load(SlotOperand(s.env.syms, x))
                 case _ => Dup;
  }

  lemma SimPush(s: Site, e: Expr, pc: nat, locals: seq<u64>, ops: seq<u64>, st: Store, tr: Trace, fuel: nat)
    returns (n: nat, locals': seq<u64>)
    requires e.Lit? || e.StrLit? || e.Var?
    requires ExprAt(s, e, pc, locals, st)
    requires s.since <= tr
    ensures ExprMatch(s, Conf(s.cx, pc, locals, ops, tr), n, pc + |ExprCode(e, s.env, pc)|, locals', ops,
                      Pushes(s.w, FxOf(s), e, st, tr, fuel), fuel)
    decreases fuel, e, 0
  {
    hide Enc, Conf, WorldsOk, Now, NamesGrow, ExprCode, Pushes, ExprOk, HasStrs, Slot;
    n, locals' := 1, locals;
    var i := PushEq(s, e, pc, st, tr, fuel);
    Extend(s, Conf(s.cx, pc, locals, ops, tr), 0, pc, locals, ops, tr, i);
  }

  /** The two top values replaced by the result of an operator. */
  lemma SimArith(s: Site, vm: Vm, n: nat, op: AluOp, pc: nat, locals: seq<u64>, ops: seq<u64>, qs: seq<u64>, st: Store,
      tr: Trace)
    requires SiteOk(s) && |qs| >= 2 && LocalsOk(locals, s.env.syms, st)
    requires s.since <= tr
    requires At(s.cx.fn.code, pc, Enc(Arith(op))) && Reached(s, vm, n, pc, locals, ops + qs, tr)
    ensures ExprMatch(s, vm, n + 1, pc + |Enc(Arith(op))|, locals, ops, ArithTop(op, qs, st, tr), 0)
    ensures var r := ArithTop(op, qs, st, tr); r.Ok? ==> r.st == st && r.tr == tr
  {
    hide Enc, Conf, Steps, Alu, Slot, WorldsOk, Now, NamesGrow;
    Extend(s, vm, n, pc, locals, ops + qs, tr, Arith(op));
    assert Init(Init(ops + qs)) == ops + Init(Init(qs));
    var a := Alu(op, Top(Init(qs)), Top(qs));
    if a.Value? {
      assert (ops + Init(Init(qs))) + [a.v] == ops + (Init(Init(qs)) + [a.v]);
    }
  }

  /** A run that has reached `pc` in this frame. */
  ghost predicate Reached(s: Site, vm: Vm, n: nat, pc: nat, locals: seq<u64>, ops: seq<u64>, tr: Trace) {
    Steps(s.w.m, vm, n) == Run(Conf(s.cx, pc, locals, ops, tr))
  }

  lemma BinEq(s: Site, e: Expr, pc: nat, st: Store, tr: Trace, fuel: nat)
    requires e.Bin?
    ensures ExprOk(e, s.env.syms, s.env.reg) == (ExprOk(e.a, s.env.syms, s.env.reg)
      && ExprOk(e.b, s.env.syms, s.env.reg))
    ensures HasStrs(e, s.env.strs) == (HasStrs(e.a, s.env.strs) && HasStrs(e.b, s.env.strs))
    ensures var ca := ExprCode(e.a, s.env, pc);
      ExprCode(e, s.env, pc) == ca + (ExprCode(e.b, s.env, pc + |ca|) + Enc(Arith(e.op)))
    ensures var ra := Pushes(s.w, FxOf(s), e.a, st, tr, fuel);
      Pushes(s.w, FxOf(s), e, st, tr, fuel) ==
        if !ra.Ok? then ra
        else
          var rb := Pushes(s.w, FxOf(s), e.b, ra.st, ra.tr, fuel);
          if !rb.Ok? then rb else ArithTop(e.op, ra.ps + rb.ps, rb.st, rb.tr)
  {
    hide Enc, Slot, Alu, CallFn, Pads, IndexOf, LogicCode, ArgsCode, Logic, PushAll, Get, ArithTop, Keep, SlotOperand;
  }

  lemma SimBin(s: Site, e: Expr, pc: nat, locals: seq<u64>, ops: seq<u64>, st: Store, tr: Trace, fuel: nat)
    returns (n: nat, locals': seq<u64>)
    requires e.Bin?
    requires ExprAt(s, e, pc, locals, st)
    requires s.since <= tr
    ensures ExprMatch(s, Conf(s.cx, pc, locals, ops, tr), n, pc + |ExprCode(e, s.env, pc)|, locals', ops,
                      Pushes(s.w, FxOf(s), e, st, tr, fuel), fuel)
    decreases fuel, e, 0
  {
    hide Enc, Conf, Steps, LocalsOk, Slot, Alu, WorldsOk, Now, NamesGrow, ExprCode, Pushes, ExprOk, HasStrs, At;
    BinEq(s, e, pc, st, tr, fuel);
    var vm := Conf(s.cx, pc, locals, ops, tr);
    var ca := ExprCode(e.a, s.env, pc);
    var cb := ExprCode(e.b, s.env, pc + |ca|);
    AtSplit(s.cx.fn.code, pc, ca, cb + Enc(Arith(e.op)));
    AtSplit(s.cx.fn.code, pc + |ca|, cb, Enc(Arith(e.op)));
    var ra := Pushes(s.w, FxOf(s), e.a, st, tr, fuel);
    var l1, k;
    n, l1 := SimExpr(s, e.a, pc, locals, ops, st, tr, fuel);
    locals' := l1;
    if !Steps(s.w.m, vm, n).Run? || !ra.Ok? {
      return;
    }
    var rb := Pushes(s.w, FxOf(s), e.b, ra.st, ra.tr, fuel);
    k, locals' := SimExpr(s, e.b, pc + |ca|, l1, ops + ra.ps, ra.st, ra.tr, fuel);
    StepsThen(s.w.m, vm, n, Conf(s.cx, pc + |ca|, l1, ops + ra.ps, ra.tr), k);
    n := n + k;
    if !Steps(s.w.m, vm, n).Run? || !rb.Ok? {
      return;
    }
    assert (ops + ra.ps) + rb.ps == ops + (ra.ps + rb.ps);
    SimArith(s, vm, n, e.op, pc + |ca| + |cb|, locals', ops, ra.ps + rb.ps, rb.st, rb.tr);
    n := n + 1;
  }

  lemma UnEq(s: Site, e: Expr, pc: nat, st: Store, tr: Trace, fuel: nat)
    requires e.Un?
    ensures ExprOk(e, s.env.syms, s.env.reg) == ExprOk(e.a, s.env.syms, s.env.reg)
    ensures HasStrs(e, s.env.strs) == HasStrs(e.a, s.env.strs)
    ensures ExprCode(e, s.env, pc) == ExprCode(e.a, s.env, pc) + Enc(UnInstr(e.uop))
    ensures var ra := Pushes(s.w, FxOf(s), e.a, st, tr, fuel);
      Pushes(s.w, FxOf(s), e, st, tr, fuel) ==
        if !ra.Ok? then ra else Ok(Init(ra.ps) + [UnOf(e.uop, Top(ra.ps))], ra.st, ra.tr)
  {
    hide Enc, Slot, Alu, CallFn, Pads, IndexOf, LogicCode, ArgsCode, Logic, PushAll, Get, ArithTop, Keep, SlotOperand;
  }

  function UnInstr(op: UnOp): Instr {
    match op
    case Neg => NegI
    case Not => NotI
    case BNot => BNotI
  }

  lemma SimUn(s: Site, e: Expr, pc: nat, locals: seq<u64>, ops: seq<u64>, st: Store, tr: Trace, fuel: nat)
    returns (n: nat, locals': seq<u64>)
    requires e.Un?
    requires ExprAt(s, e, pc, locals, st)
    requires s.since <= tr
    ensures ExprMatch(s, Conf(s.cx, pc, locals, ops, tr), n, pc + |ExprCode(e, s.env, pc)|, locals', ops,
                      Pushes(s.w, FxOf(s), e, st, tr, fuel), fuel)
    decreases fuel, e, 0
  {
    hide Enc, Conf, Steps, LocalsOk, Slot, Alu, WorldsOk, Now, NamesGrow, ExprCode, Pushes, ExprOk, HasStrs, At;
    UnEq(s, e, pc, st, tr, fuel);
    var vm := Conf(s.cx, pc, locals, ops, tr);
    var ca := ExprCode(e.a, s.env, pc);
    AtSplit(s.cx.fn.code, pc, ca, Enc(UnInstr(e.uop)));
    var ra := Pushes(s.w, FxOf(s), e.a, st, tr, fuel);
    n, locals' := SimExpr(s, e.a, pc, locals, ops, st, tr, fuel);
    if !Steps(s.w.m, vm, n).Run? || !ra.Ok? {
      return;
    }
    var qs := ops + ra.ps;
    LocalsSize(locals', s.env.syms, ra.st);
    Extend(s, vm, n, pc + |ca|, locals', qs, ra.tr, UnInstr(e.uop));
    n := n + 1;
    assert Init(qs) == ops + Init(ra.ps);
    assert Init(qs) + [UnOf(e.uop, Top(ra.ps))] == ops + (Init(ra.ps) + [UnOf(e.uop, Top(ra.ps))]);
  }

  // ---- variables ----

  lemma SimLoad(s: Site, vm: Vm, n: nat, x: string, pc: nat, locals: seq<u64>, ops: seq<u64>, st: Store, tr: Trace)
    returns (n': nat)
    requires SiteOk(s) && Slot(s.env.syms, x) >= 0 && At(s.cx.fn.code, pc, LoadCode(x, s.env))
      && LocalsOk(locals, s.env.syms, st)
    requires s.since <= tr
    requires Reached(s, vm, n, pc, locals, ops, tr)
    ensures n' == n + 1
    ensures Excused(Steps(s.w.m, vm, n')) || Reached(s, vm, n', pc + |LoadCode(x, s.env)|, locals, ops + [Get(st, x)],
      tr)
  {
    hide Enc, Conf, Steps, WorldsOk, Now, NamesGrow;
    n' := n + 1;
    Extend(s, vm, n, pc, locals, ops, tr, Load(SlotOperand(s.env.syms, x)));
  }

  lemma SimStore(s: Site, vm: Vm, n: nat, x: string, pc: nat, locals: seq<u64>, ops: seq<u64>, v: u64, st: Store,
      tr: Trace)
    returns (n': nat, locals': seq<u64>)
    requires SiteOk(s) && Slot(s.env.syms, x) >= 0 && At(s.cx.fn.code, pc, StoreCode(x, s.env))
      && LocalsOk(locals, s.env.syms, st)
    requires s.since <= tr
    requires Reached(s, vm, n, pc, locals, ops + [v], tr)
    ensures LocalsOk(locals', s.env.syms, st[x := v])
    ensures Reached(s, vm, n', pc + |StoreCode(x, s.env)|, locals', ops, tr)
  {
    hide Enc, Conf, Steps, WorldsOk, Now, NamesGrow;
    n' := n + 1;
    locals' := locals[Slot(s.env.syms, x) := v];
    LocalsSet(locals, s.env.syms, st, x, v);
    assert Init(ops + [v]) == ops;
    Extend(s, vm, n, pc, locals, ops + [v], tr, Store(SlotOperand(s.env.syms, x)));
  }

  /** DUP, STORE. */
  lemma SimKeep(s: Site, vm: Vm, n: nat, x: string, pc: nat, locals: seq<u64>, ops: seq<u64>, v: u64, st: Store,
      tr: Trace)
    returns (n': nat, locals': seq<u64>)
    requires SiteOk(s) && Slot(s.env.syms, x) >= 0 && LocalsOk(locals, s.env.syms, st)
    requires s.since <= tr
    requires At(s.cx.fn.code, pc, Enc(Dup) + StoreCode(x, s.env))
    requires Reached(s, vm, n, pc, locals, ops + [v], tr)
    ensures Excused(Steps(s.w.m, vm, n')) ||
      (LocalsOk(locals', s.env.syms, st[x := v]) && Reached(s, vm, n', pc + |Enc(Dup) + StoreCode(x, s.env)|, locals',
        ops + [v], tr))
  {
    hide Enc, Conf, Steps, WorldsOk, Now, NamesGrow, StoreCode, Slot;
    AtSplit(s.cx.fn.code, pc, Enc(Dup), StoreCode(x, s.env));
    Extend(s, vm, n, pc, locals, ops + [v], tr, Dup);
    n', locals' := n + 1, locals;
    if Full(s.cx, locals, ops + [v]) {
      return;
    }
    n', locals' := SimStore(s, vm, n + 1, x, pc + |Enc(Dup)|, locals, ops + [v], v, st, tr);
  }

  lemma AddIs(a: u64, b: u64)
    ensures Alu(Add, a, b) == Value(Wrap(a + b))
  {
  }

  /** PUSH 1 or -1, ADD. */
  lemma SimInc(s: Site, vm: Vm, n: nat, up: bool, pc: nat, locals: seq<u64>, ops: seq<u64>, v: u64, tr: Trace)
    returns (n': nat)
    requires SiteOk(s) && |locals| == s.cx.fn.nlocals
    requires s.since <= tr
    requires At(s.cx.fn.code, pc, IncCode(up) + ArithOf(Add))
    requires Reached(s, vm, n, pc, locals, ops + [v], tr)
    ensures Excused(Steps(s.w.m, vm, n')) ||
      Reached(s, vm, n', pc + |IncCode(up) + ArithOf(Add)|, locals, ops + [Wrap(v + StepOf(up))], tr)
  {
    hide Enc, Conf, Steps, WorldsOk, Now, NamesGrow, Alu, At;
    AddIs(v, StepOf(up));
    AtSplit(s.cx.fn.code, pc, IncCode(up), ArithOf(Add));
    Extend(s, vm, n, pc, locals, ops + [v], tr, Push(StepOf(up)));
    n' := n + 1;
    if Full(s.cx, locals, ops + [v]) {
      return;
    }
    var qs := ops + [v] + [StepOf(up)];
    Extend(s, vm, n + 1, pc + |IncCode(up)|, locals, qs, tr, Arith(Add));
    n' := n + 2;
    assert Init(Init(qs)) == ops;
  }

  lemma PreIncEq(s: Site, e: Expr, pc: nat, st: Store, tr: Trace, fuel: nat)
    requires e.PreInc? && ExprOk(e, s.env.syms, s.env.reg)
    ensures e.a.Var? && Slot(s.env.syms, e.a.name) >= 0
    ensures var x := e.a.name; var load, keep := LoadCode(x, s.env), Enc(Dup) + StoreCode(x, s.env);
      ExprCode(e, s.env, pc) == load + (load + ((IncCode(e.up) + ArithOf(Add)) + keep))
    ensures var x := e.a.name; var v := Get(st, x); var v1 := Wrap(v + StepOf(e.up));
      Pushes(s.w, FxOf(s), e, st, tr, fuel) == Ok([v, v1], st[x := v1], tr)
  {
    hide Enc, Slot, LoadCode, StoreCode;
    var x := e.a.name;
    Assoc(IncCode(e.up), ArithOf(Add), Enc(Dup) + StoreCode(x, s.env));
  }

  lemma SimPreInc(s: Site, e: Expr, pc: nat, locals: seq<u64>, ops: seq<u64>, st: Store, tr: Trace, fuel: nat)
    returns (n: nat, locals': seq<u64>)
    requires e.PreInc?
    requires ExprAt(s, e, pc, locals, st)
    requires s.since <= tr
    ensures ExprMatch(s, Conf(s.cx, pc, locals, ops, tr), n, pc + |ExprCode(e, s.env, pc)|, locals', ops,
                      Pushes(s.w, FxOf(s), e, st, tr, fuel), fuel)
    decreases fuel, e, 0
  {
    hide Enc, Conf, Steps, LocalsOk, Slot, Alu, WorldsOk, Now, NamesGrow, ExprCode, Pushes, ExprOk, HasStrs, At,
      LoadCode, StoreCode, IncCode;
    PreIncEq(s, e, pc, st, tr, fuel);
    var x, code := e.a.name, s.cx.fn.code;
    var v := Get(st, x);
    var vm := Conf(s.cx, pc, locals, ops, tr);
    var load, inc, keep := LoadCode(x, s.env), IncCode(e.up) + ArithOf(Add), Enc(Dup) + StoreCode(x, s.env);
    AtSplit(code, pc, load, load + (inc + keep));
    AtSplit(code, pc + |load|, load, inc + keep);
    AtSplit(code, pc + |load| + |load|, inc, keep);
    locals' := locals;
    LocalsSize(locals, s.env.syms, st);
    StepsZero(s.w.m, vm);
    n := SimLoad(s, vm, 0, x, pc, locals, ops, st, tr);
    if Excused(Steps(s.w.m, vm, n)) { return; }
    n := SimLoad(s, vm, n, x, pc + |load|, locals, ops + [v], st, tr);
    if Excused(Steps(s.w.m, vm, n)) { return; }
    n := SimInc(s, vm, n, e.up, pc + |load| + |load|, locals, ops + [v], v, tr);
    if Excused(Steps(s.w.m, vm, n)) { return; }
    var v1 := Wrap(v + StepOf(e.up));
    n, locals' := SimKeep(s, vm, n, x, pc + |load| + |load| + |inc|, locals, ops + [v], v1, st, tr);
    assert (ops + [v]) + [v1] == ops + [v, v1];
  }

  lemma PostIncEq(s: Site, e: Expr, pc: nat, st: Store, tr: Trace, fuel: nat)
    requires e.PostInc? && ExprOk(e, s.env.syms, s.env.reg)
    ensures Slot(s.env.syms, e.name) >= 0
    ensures var x := e.name;
      ExprCode(e, s.env, pc) == LoadCode(x, s.env) + (Enc(Dup) + ((IncCode(e.up) + ArithOf(Add)) + StoreCode(x, s.env)))
    ensures var x := e.name; var v := Get(st, x);
      Pushes(s.w, FxOf(s), e, st, tr, fuel) == Ok([v], st[x := Wrap(v + StepOf(e.up))], tr)
  {
    hide Enc, Slot, LoadCode, StoreCode;
    Assoc(IncCode(e.up), ArithOf(Add), StoreCode(e.name, s.env));
  }

  lemma SimPostInc(s: Site, e: Expr, pc: nat, locals: seq<u64>, ops: seq<u64>, st: Store, tr: Trace, fuel: nat)
    returns (n: nat, locals': seq<u64>)
    requires e.PostInc?
    requires ExprAt(s, e, pc, locals, st)
    requires s.since <= tr
    ensures ExprMatch(s, Conf(s.cx, pc, locals, ops, tr), n, pc + |ExprCode(e, s.env, pc)|, locals', ops,
                      Pushes(s.w, FxOf(s), e, st, tr, fuel), fuel)
    decreases fuel, e, 0
  {
    hide Enc, Conf, Steps, LocalsOk, Slot, Alu, WorldsOk, Now, NamesGrow, ExprCode, Pushes, ExprOk, HasStrs, At,
      LoadCode, StoreCode, IncCode;
    PostIncEq(s, e, pc, st, tr, fuel);
    var x, code := e.name, s.cx.fn.code;
    var v := Get(st, x);
    var vm := Conf(s.cx, pc, locals, ops, tr);
    var load, inc, store := LoadCode(x, s.env), IncCode(e.up) + ArithOf(Add), StoreCode(x, s.env);
    AtSplit(code, pc, load, Enc(Dup) + (inc + store));
    AtSplit(code, pc + |load|, Enc(Dup), inc + store);
    AtSplit(code, pc + |load| + |Enc(Dup)|, inc, store);
    locals' := locals;
    LocalsSize(locals, s.env.syms, st);
    StepsZero(s.w.m, vm);
    n := SimLoad(s, vm, 0, x, pc, locals, ops, st, tr);
    if Excused(Steps(s.w.m, vm, n)) { return; }
    Extend(s, vm, n, pc + |load|, locals, ops + [v], tr, Dup);
    n := n + 1;
    if Excused(Steps(s.w.m, vm, n)) { return; }
    n := SimInc(s, vm, n, e.up, pc + |load| + |Enc(Dup)|, locals, ops + [v], v, tr);
    if Excused(Steps(s.w.m, vm, n)) { return; }
    n, locals' := SimStore(s, vm, n, x, pc + |load| + |Enc(Dup)| + |inc|, locals, ops + [v], Wrap(v + StepOf(e.up)), st,
      tr);
  }

  lemma AssignEq(s: Site, e: Expr, pc: nat, st: Store, tr: Trace, fuel: nat)
    requires e.Assign? && ExprOk(e, s.env.syms, s.env.reg)
    ensures Slot(s.env.syms, e.name) >= 0 && ExprOk(e.a, s.env.syms, s.env.reg)
    ensures HasStrs(e, s.env.strs) == HasStrs(e.a, s.env.strs)
    ensures var x := e.name; var keep := Enc(Dup) + StoreCode(x, s.env); var load := LoadCode(x, s.env);
      && |load| == 5
      && ExprCode(e, s.env, pc) ==
        (if e.aop.Set? then ExprCode(e.a, s.env, pc) + keep
         else load + (ExprCode(e.a, s.env, pc + 5) + (Enc(Arith(e.aop.op)) + keep)))
    ensures var ra := Pushes(s.w, FxOf(s), e.a, st, tr, fuel);
      Pushes(s.w, FxOf(s), e, st, tr, fuel) ==
        if !ra.Ok? then ra
        else if e.aop.Set? then Keep(e.name, ra)
        else Keep(e.name, ArithTop(e.aop.op, [Get(st, e.name)] + ra.ps, ra.st, ra.tr))
  {
    hide Enc, Slot, StoreCode;
    assert |LoadCode(e.name, s.env)| == 5 by { SizeLoad(e.name, s.env); }
  }

  lemma SizeLoad(x: string, env: Env)
    ensures |LoadCode(x, env)| == 5
  {
  }

  lemma SetSite(s: Site, e: Expr, pc: nat)
    requires e.Assign? && e.aop.Set? && ExprSite(s, e, pc)
    ensures var ca, keep := ExprCode(e.a, s.env, pc), Enc(Dup) + StoreCode(e.name, s.env);
      && SiteOk(s) && ExprOk(e, s.env.syms, s.env.reg) && ExprSite(s, e.a, pc)
      && At(s.cx.fn.code, pc + |ca|, keep) && ExprCode(e, s.env, pc) == ca + keep
  {
    hide Enc, WorldsOk, Now, NamesGrow, ExprCode, ExprOk, HasStrs, At, LoadCode, StoreCode, Slot;
    AssignEq(s, e, pc, map[], [], 0);
    AtSplit(s.cx.fn.code, pc, ExprCode(e.a, s.env, pc), Enc(Dup) + StoreCode(e.name, s.env));
  }

  lemma SimAssign(s: Site, e: Expr, pc: nat, locals: seq<u64>, ops: seq<u64>, st: Store, tr: Trace, fuel: nat)
    returns (n: nat, locals': seq<u64>)
    requires e.Assign?
    requires ExprAt(s, e, pc, locals, st)
    requires s.since <= tr
    ensures ExprMatch(s, Conf(s.cx, pc, locals, ops, tr), n, pc + |ExprCode(e, s.env, pc)|, locals', ops,
                      Pushes(s.w, FxOf(s), e, st, tr, fuel), fuel)
    decreases fuel, e, 1
  {
    hide Enc, Conf, Steps, LocalsOk, Slot, Alu, WorldsOk, Now, NamesGrow, ExprCode, Pushes, ExprOk, HasStrs, At,
      LoadCode, StoreCode, ExprSite, SiteOk;
    if e.aop.Compound? {
      n, locals' := SimCompound(s, e, pc, locals, ops, st, tr, fuel);
      return;
    }
    SetSite(s, e, pc);
    AssignEq(s, e, pc, st, tr, fuel);
    var vm := Conf(s.cx, pc, locals, ops, tr);
    var ca, keep := ExprCode(e.a, s.env, pc), Enc(Dup) + StoreCode(e.name, s.env);
    var ra := Pushes(s.w, FxOf(s), e.a, st, tr, fuel);
    n, locals' := SimExpr(s, e.a, pc, locals, ops, st, tr, fuel);
    if !Steps(s.w.m, vm, n).Run? || !ra.Ok? {
      return;
    }
    var qs := ops + Init(ra.ps);
    assert ops + ra.ps == qs + [Top(ra.ps)];
    n, locals' := SimKeep(s, vm, n, e.name, pc + |ca|, locals', qs, Top(ra.ps), ra.st, ra.tr);
  }

  /** An operator, then DUP and STORE. */
  lemma SimArithKeep(s: Site, vm: Vm, n: nat, op: AluOp, x: string, pc: nat, locals: seq<u64>, ops: seq<u64>,
      qs: seq<u64>, st: Store, tr: Trace)
    returns (n': nat, locals': seq<u64>)
    requires SiteOk(s) && |qs| >= 2 && LocalsOk(locals, s.env.syms, st) && Slot(s.env.syms, x) >= 0
    requires s.since <= tr
    requires At(s.cx.fn.code, pc, Enc(Arith(op)) + (Enc(Dup) + StoreCode(x, s.env)))
    requires Reached(s, vm, n, pc, locals, ops + qs, tr)
    ensures ExprMatch(s, vm, n', pc + |Enc(Arith(op)) + (Enc(Dup) + StoreCode(x, s.env))|, locals', ops,
                      Keep(x, ArithTop(op, qs, st, tr)), 0)
  {
    hide Enc, Conf, Steps, LocalsOk, Slot, Alu, At, StoreCode, SiteOk, ArithTop;
    var keep := Enc(Dup) + StoreCode(x, s.env);
    AtSplit(s.cx.fn.code, pc, Enc(Arith(op)), keep);
    SimArith(s, vm, n, op, pc, locals, ops, qs, st, tr);
    n', locals' := n + 1, locals;
    var r := ArithTop(op, qs, st, tr);
    if !r.Ok? || Excused(Steps(s.w.m, vm, n')) {
      return;
    }
    assert ops + r.ps == (ops + Init(r.ps)) + [Top(r.ps)];
    n', locals' := SimKeep(s, vm, n', x, pc + |Enc(Arith(op))|, locals', ops + Init(r.ps), Top(r.ps), r.st, r.tr);
  }

  lemma CompoundSite(s: Site, e: Expr, pc: nat)
    requires e.Assign? && e.aop.Compound? && ExprSite(s, e, pc)
    ensures var load, keep := LoadCode(e.name, s.env), Enc(Dup) + StoreCode(e.name, s.env);
      && SiteOk(s) && ExprOk(e, s.env.syms, s.env.reg) && ExprSite(s, e.a, pc + 5)
      && At(s.cx.fn.code, pc, load + (ExprCode(e.a, s.env, pc + 5) + (Enc(Arith(e.aop.op)) + keep)))
  {
    hide Enc, WorldsOk, Now, NamesGrow, ExprCode, ExprOk, HasStrs, At, LoadCode, StoreCode, Slot;
    AssignEq(s, e, pc, map[], [], 0);
    var load, keep := LoadCode(e.name, s.env), Enc(Dup) + StoreCode(e.name, s.env);
    var ca := ExprCode(e.a, s.env, pc + 5);
    AtSplit(s.cx.fn.code, pc, load, ca + (Enc(Arith(e.aop.op)) + keep));
    AtSplit(s.cx.fn.code, pc + 5, ca, Enc(Arith(e.aop.op)) + keep);
  }

  lemma SimCompound(s: Site, e: Expr, pc: nat, locals: seq<u64>, ops: seq<u64>, st: Store, tr: Trace, fuel: nat)
    returns (n: nat, locals': seq<u64>)
    requires e.Assign? && e.aop.Compound?
    requires ExprAt(s, e, pc, locals, st)
    requires s.since <= tr
    ensures ExprMatch(s, Conf(s.cx, pc, locals, ops, tr), n, pc + |ExprCode(e, s.env, pc)|, locals', ops,
                      Pushes(s.w, FxOf(s), e, st, tr, fuel), fuel)
    decreases fuel, e, 0
  {
    hide Enc, Conf, Steps, LocalsOk, Slot, Alu, WorldsOk, Now, NamesGrow, ExprCode, Pushes, ExprOk, HasStrs, At,
      LoadCode, StoreCode, SiteOk, ArithTop, ExprSite, FxOf, Get;
    CompoundSite(s, e, pc);
    AssignEq(s, e, pc, st, tr, fuel);
    var x, code := e.name, s.cx.fn.code;
    var v := Get(st, x);
    var vm := Conf(s.cx, pc, locals, ops, tr);
    var load, ca, keep := LoadCode(x, s.env), ExprCode(e.a, s.env, pc + 5), Enc(Dup) + StoreCode(x, s.env);
    var tail := Enc(Arith(e.aop.op)) + keep;
    AtSplit(code, pc, load, ca + tail);
    AtSplit(code, pc + 5, ca, tail);
    assert pc + |ExprCode(e, s.env, pc)| == pc + 5 + |ca| + |tail|;
    locals' := locals;
    StepsZero(s.w.m, vm);
    n := SimLoad(s, vm, 0, x, pc, locals, ops, st, tr);
    if Excused(Steps(s.w.m, vm, n)) { return; }
    var ra := Pushes(s.w, FxOf(s), e.a, st, tr, fuel);
    var k, l1 := SimExpr(s, e.a, pc + 5, locals, ops + [v], st, tr, fuel);
    StepsThen(s.w.m, vm, n, Conf(s.cx, pc + 5, locals, ops + [v], tr), k);
    n, locals' := n + k, l1;
    if !Steps(s.w.m, vm, n).Run? || !ra.Ok? {
      return;
    }
    OneBelow(ops, v, ra.ps);
    n, locals' := SimArithKeep(s, vm, n, e.aop.op, x, pc + 5 + |ca|, locals', ops, [v] + ra.ps, ra.st, ra.tr);
  }

  lemma OneBelow(ops: seq<u64>, v: u64, ps: seq<u64>)
    ensures (ops + [v]) + ps == ops + ([v] + ps)
  {
  }


  // ---- logical operators ----

  function LogicJump(isAnd: bool, t: nat): Instr {
    if isAnd then JmpF(ToU32(t)) else JmpT(ToU32(t))
  }

  function LogicPair(isAnd: bool): seq<u64> {
    if isAnd then [0, 1] else [1, 0]
  }

  /** The two pushes with the jump between them that lands on the second. */
  function PairCode(isAnd: bool, pc: nat): seq<byte> {
    Enc(Push(LogicPair(isAnd)[0])) + (Enc(Jmp(ToU32(pc + 14))) + Enc(Push(LogicPair(isAnd)[1])))
  }

  lemma JumpSizes(isAnd: bool, t: nat)
    ensures |Enc(LogicJump(isAnd, t))| == 5 && |Enc(Jmp(ToU32(t)))| == 5
    ensures |Enc(Push(0))| == 9 && |Enc(Push(1))| == 9
    ensures |PairCode(isAnd, t)| == 23
  {
  }

  lemma LogicLayout(ca: seq<byte>, cb: seq<byte>, isAnd: bool, pc: nat)
    ensures
      var short := pc + |ca| + 5 + |cb| + 5;
      var j := Enc(LogicJump(isAnd, short));
      && |j| == 5 && |PairCode(isAnd, short)| == 23
      && LogicCode(ca, cb, isAnd, pc) == ca + (j + (cb + (j + PairCode(isAnd, short))))
  {
    hide Enc;
    JumpSizes(isAnd, pc + |ca| + 5 + |cb| + 5);
  }

  lemma LogicCodeEq(s: Site, e: Expr, pc: nat)
    requires e.AndAnd? || e.OrOr?
    ensures ExprOk(e, s.env.syms, s.env.reg) == (ExprOk(e.a, s.env.syms, s.env.reg)
      && ExprOk(e.b, s.env.syms, s.env.reg))
    ensures HasStrs(e, s.env.strs) == (HasStrs(e.a, s.env.strs) && HasStrs(e.b, s.env.strs))
    ensures
      var ca := ExprCode(e.a, s.env, pc);
      ExprCode(e, s.env, pc) == LogicCode(ca, ExprCode(e.b, s.env, pc + |ca| + 5), e.AndAnd?, pc)
  {
    hide Enc, Slot, LogicCode;
  }

  lemma LogicEq(s: Site, e: Expr, st: Store, tr: Trace, fuel: nat)
    requires e.AndAnd? || e.OrOr?
    ensures
      var ra := Pushes(s.w, FxOf(s), e.a, st, tr, fuel);
      Pushes(s.w, FxOf(s), e, st, tr, fuel) ==
        if !ra.Ok? then ra
        else if (Top(ra.ps) == 0) == e.AndAnd? then Ok(Init(ra.ps) + LogicPair(e.AndAnd?), ra.st, ra.tr)
        else
          var rb := Pushes(s.w, FxOf(s), e.b, ra.st, ra.tr, fuel);
          if !rb.Ok? then rb else Ok(Init(ra.ps) + (Init(rb.ps) + LogicPair(e.AndAnd?)), rb.st, rb.tr)
  {
    hide Slot;
  }

  lemma SimPair(s: Site, vm: Vm, n: nat, isAnd: bool, pc: nat, locals: seq<u64>, ops: seq<u64>, tr: Trace)
    returns (n': nat)
    requires SiteOk(s) && |locals| == s.cx.fn.nlocals
    requires s.since <= tr
    requires At(s.cx.fn.code, pc, PairCode(isAnd, pc)) && |PairCode(isAnd, pc)| == 23
    requires Reached(s, vm, n, pc, locals, ops, tr)
    ensures Excused(Steps(s.w.m, vm, n')) || Reached(s, vm, n', pc + 23, locals, ops + LogicPair(isAnd), tr)
  {
    hide Enc, Conf, Steps, WorldsOk, Now, NamesGrow;
    var p, q := LogicPair(isAnd)[0], LogicPair(isAnd)[1];
    JumpSizes(isAnd, pc + 14);
    AtSplit(s.cx.fn.code, pc, Enc(Push(p)), Enc(Jmp(ToU32(pc + 14))) + Enc(Push(q)));
    AtSplit(s.cx.fn.code, pc + 9, Enc(Jmp(ToU32(pc + 14))), Enc(Push(q)));
    Extend(s, vm, n, pc, locals, ops, tr, Push(p));
    n' := n + 1;
    if Full(s.cx, locals, ops) {
      return;
    }
    Extend(s, vm, n + 1, pc + 9, locals, ops + [p], tr, Jmp(ToU32(pc + 14)));
    Extend(s, vm, n + 2, pc + 14, locals, ops + [p], tr, Push(q));
    n' := n + 3;
    assert (ops + [p]) + [q] == ops + [p, q];
  }

  lemma LogicSite(s: Site, e: Expr, pc: nat)
    requires (e.AndAnd? || e.OrOr?) && ExprSite(s, e, pc)
    ensures
      var ca := ExprCode(e.a, s.env, pc);
      var p1 := pc + |ca| + 5;
      var cb := ExprCode(e.b, s.env, p1);
      var short := p1 + |cb| + 5;
      var j := LogicJump(e.AndAnd?, short);
      && SiteOk(s) && ExprSite(s, e.a, pc) && ExprSite(s, e.b, p1)
      && |Enc(j)| == 5 && |PairCode(e.AndAnd?, short)| == 23
      && At(s.cx.fn.code, pc + |ca|, Enc(j)) && At(s.cx.fn.code, p1 + |cb|, Enc(j))
      && At(s.cx.fn.code, short, PairCode(e.AndAnd?, short))
      && pc + |ExprCode(e, s.env, pc)| == short + 23 < TWO32
  {
    hide Enc, WorldsOk, Now, NamesGrow, ExprCode, ExprOk, HasStrs, At, PairCode, LogicCode, Slot, LogicJump;
    LogicCodeEq(s, e, pc);
    var code := s.cx.fn.code;
    var ca := ExprCode(e.a, s.env, pc);
    var cb := ExprCode(e.b, s.env, pc + |ca| + 5);
    var short := pc + |ca| + 5 + |cb| + 5;
    var j, pair := Enc(LogicJump(e.AndAnd?, short)), PairCode(e.AndAnd?, short);
    LogicLayout(ca, cb, e.AndAnd?, pc);
    AtSplit(code, pc, ca, j + (cb + (j + pair)));
    AtSplit(code, pc + |ca|, j, cb + (j + pair));
    AtSplit(code, pc + |ca| + 5, cb, j + pair);
    AtSplit(code, pc + |ca| + 5 + |cb|, j, pair);
    AtEnd(code, short, pair);
  }

  lemma SimLogic(s: Site, e: Expr, pc: nat, locals: seq<u64>, ops: seq<u64>, st: Store, tr: Trace, fuel: nat)
    returns (n: nat, locals': seq<u64>)
    requires e.AndAnd? || e.OrOr?
    requires ExprAt(s, e, pc, locals, st)
    requires s.since <= tr
    ensures ExprMatch(s, Conf(s.cx, pc, locals, ops, tr), n, pc + |ExprCode(e, s.env, pc)|, locals', ops,
                      Pushes(s.w, FxOf(s), e, st, tr, fuel), fuel)
    decreases fuel, e, 1
  {
    hide Enc, Conf, Steps, LocalsOk, Slot, Alu, WorldsOk, Now, NamesGrow, ExprCode, Pushes, ExprOk, HasStrs, At,
      PairCode, LogicPair, LogicCode, SiteOk, ExprSite;
    LogicEq(s, e, st, tr, fuel);
    LogicSite(s, e, pc);
    var vm := Conf(s.cx, pc, locals, ops, tr);
    var ca := ExprCode(e.a, s.env, pc);
    var cb := ExprCode(e.b, s.env, pc + |ca| + 5);
    var short := pc + |ca| + 5 + |cb| + 5;
    var j := LogicJump(e.AndAnd?, short);
    var ra := Pushes(s.w, FxOf(s), e.a, st, tr, fuel);
    n, locals' := SimExpr(s, e.a, pc, locals, ops, st, tr, fuel);
    if !Steps(s.w.m, vm, n).Run? || !ra.Ok? {
      return;
    }
    LocalsFit(s, locals', ra.st);
    Extend(s, vm, n, pc + |ca|, locals', ops + ra.ps, ra.tr, j);
    assert Init(ops + ra.ps) == ops + Init(ra.ps);
    n := n + 1;
    if (Top(ra.ps) == 0) == e.AndAnd? {
      n := SimPair(s, vm, n, e.AndAnd?, short, locals', ops + Init(ra.ps), ra.tr);
      assert (ops + Init(ra.ps)) + LogicPair(e.AndAnd?) == ops + (Init(ra.ps) + LogicPair(e.AndAnd?));
    } else {
      n, locals' := SimSecond(s, vm, n, e.AndAnd?, e.b, pc + |ca| + 5, locals', ops, Init(ra.ps), ra.st, ra.tr, fuel);
    }
  }

  lemma AtEnd(code: seq<byte>, pc: nat, part: seq<byte>)
    requires At(code, pc, part)
    ensures pc + |part| <= |code|
  {
  }

  /** The second operand, its jump, and the pushes, above what the first left. */
  lemma SimSecond(s: Site, vm: Vm, n: nat, isAnd: bool, b: Expr, pc: nat, locals: seq<u64>, ops: seq<u64>,
                  left: seq<u64>, st: Store, tr: Trace, fuel: nat)
    returns (n': nat, locals': seq<u64>)
    requires ExprAt(s, b, pc, locals, st) && Reached(s, vm, n, pc, locals, ops + left, tr)
    requires s.since <= tr && SecondAt(s, isAnd, b, pc)
    ensures
      var rb := Pushes(s.w, FxOf(s), b, st, tr, fuel);
      ExprMatch(s, vm, n', pc + |ExprCode(b, s.env, pc)| + 28, locals', ops,
        if !rb.Ok? then rb else Ok(left + (Init(rb.ps) + LogicPair(isAnd)), rb.st, rb.tr), fuel)
    decreases fuel, b, 4
  {
    hide *;
    n', locals' := SimSecondOn(s, vm, n, isAnd, b, pc, locals, ops + left, st, tr, fuel);
    var rb := Pushes(s.w, FxOf(s), b, st, tr, fuel);
    if rb.Ok? {
      Under(s, vm, n', pc + |ExprCode(b, s.env, pc)| + 28, locals', ops, left, Init(rb.ps) + LogicPair(isAnd), rb.st,
            rb.tr, fuel);
    } else {
      UnderNone(s, vm, n', pc + |ExprCode(b, s.env, pc)| + 28, locals', ops, left, rb, fuel);
    }
  }

  /** The jump and the pushes are behind the second operand. */
  ghost predicate SecondAt(s: Site, isAnd: bool, b: Expr, pc: nat) {
    var cb := ExprCode(b, s.env, pc);
    var short := pc + |cb| + 5;
    && |Enc(LogicJump(isAnd, short))| == 5 && |PairCode(isAnd, short)| == 23
    && At(s.cx.fn.code, pc + |cb|, Enc(LogicJump(isAnd, short))) && At(s.cx.fn.code, short, PairCode(isAnd, short))
  }

  /** Part of the operands may count as results. */
  lemma Under(s: Site, vm: Vm, n: nat, end: nat, locals: seq<u64>, ops: seq<u64>, left: seq<u64>, ps: seq<u64>,
              st: Store, tr: Trace, fuel: nat)
    requires ExprMatch(s, vm, n, end, locals, ops + left, Ok(ps, st, tr), fuel)
    ensures ExprMatch(s, vm, n, end, locals, ops, Ok(left + ps, st, tr), fuel)
  {
    hide Steps, Conf, LocalsOk;
    assert (ops + left) + ps == ops + (left + ps);
  }

  lemma UnderNone(s: Site, vm: Vm, n: nat, end: nat, locals: seq<u64>, ops: seq<u64>, left: seq<u64>, r: Res, fuel: nat)
    requires !r.Ok? && ExprMatch(s, vm, n, end, locals, ops + left, r, fuel)
    ensures ExprMatch(s, vm, n, end, locals, ops, r, fuel)
  {
    hide Steps, Conf, LocalsOk;
  }

  lemma SimSecondOn(s: Site, vm: Vm, n: nat, isAnd: bool, b: Expr, pc: nat, locals: seq<u64>, ops: seq<u64>,
                    st: Store, tr: Trace, fuel: nat)
    returns (n': nat, locals': seq<u64>)
    requires ExprAt(s, b, pc, locals, st) && Reached(s, vm, n, pc, locals, ops, tr)
    requires s.since <= tr && SecondAt(s, isAnd, b, pc)
    ensures
      var rb := Pushes(s.w, FxOf(s), b, st, tr, fuel);
      ExprMatch(s, vm, n', pc + |ExprCode(b, s.env, pc)| + 28, locals', ops,
        if !rb.Ok? then rb else Ok(Init(rb.ps) + LogicPair(isAnd), rb.st, rb.tr), fuel)
    decreases fuel, b, 3
  {
    hide Enc, Conf, Steps, LocalsOk, Slot, Alu, WorldsOk, Now, NamesGrow, ExprCode, Pushes, ExprOk, HasStrs, At,
      PairCode, LogicPair, SiteOk, FxOf, ConfExec, Ready, LogicJump, Init, Top;
    var cb := ExprCode(b, s.env, pc);
    var short := pc + |cb| + 5;
    var j := LogicJump(isAnd, short);
    AtEnd(s.cx.fn.code, short, PairCode(isAnd, short));
    var rb := Pushes(s.w, FxOf(s), b, st, tr, fuel);
    n', locals' := SimExpr(s, b, pc, locals, ops, st, tr, fuel);
    StepsThen(s.w.m, vm, n, Conf(s.cx, pc, locals, ops, tr), n');
    n' := n + n';
    if !Steps(s.w.m, vm, n').Run? || !rb.Ok? {
      return;
    }
    LocalsFit(s, locals', rb.st);
    JumpLands(s.w.m, s.cx, isAnd, short, locals', ops + rb.ps, rb.tr);
    Extend(s, vm, n', pc + |cb|, locals', ops + rb.ps, rb.tr, j);
    StackShape(ops, rb.ps, LogicPair(isAnd));
    n' := SimPair(s, vm, n' + 1, isAnd, short, locals', ops + Init(rb.ps), rb.tr);
  }

  /** A logical jump to the very next instruction only takes the value it tests. */
  lemma JumpLands(m: Machine, cx: Cx, isAnd: bool, pc: nat, locals: seq<u64>, qs: seq<u64>, tr: Trace)
    requires |qs| > 0 && pc < TWO32
    ensures Ready(cx, LogicJump(isAnd, pc), locals, qs)
    ensures ConfExec(m, cx, pc, locals, qs, tr, LogicJump(isAnd, pc)) == Run(Conf(cx, pc, locals, Init(qs), tr))
  {
  }

  lemma StackShape(ops: seq<u64>, ps: seq<u64>, more: seq<u64>)
    requires |ps| > 0
    ensures Init(ops + ps) == ops + Init(ps)
    ensures (ops + Init(ps)) + more == ops + (Init(ps) + more)
  {
  }

  // ---- calls ----

  ghost predicate ArgsAt(s: Site, es: seq<Expr>, pc: nat, locals: seq<u64>, st: Store) {
    && SiteOk(s)
    && ArgsOk(es, s.env.syms, s.env.reg)
    && HasAllStrs(es, s.env.strs)
    && At(s.cx.fn.code, pc, ArgsCode(es, s.env, pc))
    && LocalsOk(locals, s.env.syms, st)
  }

  lemma ArgsEq(s: Site, es: seq<Expr>, pc: nat, st: Store, tr: Trace, fuel: nat)
    requires |es| > 0
    ensures ArgsOk(es, s.env.syms, s.env.reg) == (ExprOk(es[0], s.env.syms, s.env.reg)
      && ArgsOk(es[1..], s.env.syms, s.env.reg))
    ensures HasAllStrs(es, s.env.strs) == (HasStrs(es[0], s.env.strs) && HasAllStrs(es[1..], s.env.strs))
    ensures var c := ExprCode(es[0], s.env, pc); ArgsCode(es, s.env, pc) == c + ArgsCode(es[1..], s.env, pc + |c|)
    ensures var ra := Pushes(s.w, FxOf(s), es[0], st, tr, fuel);
      PushAll(s.w, FxOf(s), es, st, tr, fuel) ==
        if !ra.Ok? then ra
        else
          var rs := PushAll(s.w, FxOf(s), es[1..], ra.st, ra.tr, fuel);
          if !rs.Ok? then rs else Ok(ra.ps + rs.ps, rs.st, rs.tr)
  {
    hide ExprCode, Pushes, ExprOk, HasStrs;
  }

  lemma SimArgs(s: Site, es: seq<Expr>, pc: nat, locals: seq<u64>, ops: seq<u64>, st: Store, tr: Trace, fuel: nat)
    returns (n: nat, locals': seq<u64>)
    requires ArgsAt(s, es, pc, locals, st)
    requires s.since <= tr
    ensures ExprMatch(s, Conf(s.cx, pc, locals, ops, tr), n, pc + |ArgsCode(es, s.env, pc)|, locals', ops,
                      PushAll(s.w, FxOf(s), es, st, tr, fuel), fuel)
    decreases fuel, es, 0
  {
    hide Enc, Conf, Steps, LocalsOk, Slot, Alu, WorldsOk, Now, NamesGrow, ExprCode, Pushes, ExprOk, HasStrs, At,
      PushAll, ArgsOk, HasAllStrs, ArgsCode;
    var vm := Conf(s.cx, pc, locals, ops, tr);
    if |es| == 0 {
      n, locals' := 0, locals;
      NoArgs(s, es, pc, st, tr, fuel);
      StepsZero(s.w.m, vm);
      assert ops + [] == ops;
      return;
    }
    ArgsEq(s, es, pc, st, tr, fuel);
    var c := ExprCode(es[0], s.env, pc);
    AtSplit(s.cx.fn.code, pc, c, ArgsCode(es[1..], s.env, pc + |c|));
    var ra := Pushes(s.w, FxOf(s), es[0], st, tr, fuel);
    var l1, k;
    n, l1 := SimExpr(s, es[0], pc, locals, ops, st, tr, fuel);
    locals' := l1;
    if !Steps(s.w.m, vm, n).Run? || !ra.Ok? {
      return;
    }
    k, locals' := SimArgs(s, es[1..], pc + |c|, l1, ops + ra.ps, ra.st, ra.tr, fuel);
    StepsThen(s.w.m, vm, n, Conf(s.cx, pc + |c|, l1, ops + ra.ps, ra.tr), k);
    n := n + k;
    var rs := PushAll(s.w, FxOf(s), es[1..], ra.st, ra.tr, fuel);
    if rs.Ok? {
      assert (ops + ra.ps) + rs.ps == ops + (ra.ps + rs.ps);
    }
  }

  lemma NoArgs(s: Site, es: seq<Expr>, pc: nat, st: Store, tr: Trace, fuel: nat)
    requires |es| == 0
    ensures ArgsCode(es, s.env, pc) == [] && PushAll(s.w, FxOf(s), es, st, tr, fuel) == Ok([], st, tr)
  {
  }

  lemma SimPads(s: Site, vm: Vm, n: nat, vals: seq<u64>, pc: nat, locals: seq<u64>, ops: seq<u64>, tr: Trace)
    returns (n': nat)
    requires SiteOk(s) && |locals| == s.cx.fn.nlocals && At(s.cx.fn.code, pc, PadCode(vals))
    requires s.since <= tr
    requires Reached(s, vm, n, pc, locals, ops, tr)
    ensures n' >= n
    ensures Excused(Steps(s.w.m, vm, n')) || Reached(s, vm, n', pc + |PadCode(vals)|, locals, ops + vals, tr)
    decreases |vals|
  {
    hide Enc, Conf, Steps, WorldsOk, Now, NamesGrow, At;
    n' := n;
    if |vals| == 0 {
      assert ops + vals == ops;
      return;
    }
    AtSplit(s.cx.fn.code, pc, Enc(Push(vals[0])), PadCode(vals[1..]));
    Extend(s, vm, n, pc, locals, ops, tr, Push(vals[0]));
    n' := n + 1;
    if Full(s.cx, locals, ops) {
      return;
    }
    n' := SimPads(s, vm, n', vals[1..], pc + |Enc(Push(vals[0]))|, locals, ops + [vals[0]], tr);
    assert ops + [vals[0]] + vals[1..] == ops + vals;
  }

  /** The frame a call sets up over the caller's. */
  function Enter(cx: Cx, callee: Fn, pc: nat, locals: seq<u64>, ops: seq<u64>): Cx {
    Cx(callee, cx.callers + [Frame(cx.fn, pc, |cx.below|)], cx.below + (locals + ops))
  }

  /** What the CALL instruction does to the top `args` of the operands. */
  function ConfCall(m: Machine, cx: Cx, callee: Fn, pc: nat, locals: seq<u64>, ops: seq<u64>, args: seq<u64>,
      tr: Trace): Outcome {
    match callee.builtin
    case Some(k) =>
      var ev := Event(k, args);
      (match m.host(tr, ev)
       case None => Failed(BuiltinFailed, tr + [ev])
       case Some(r) =>
         if Frees(NewsAt(m, tr, ev), cx.callers + [Frame(cx.fn, pc, |cx.below|)]) then Failed(CodeFreed, tr + [ev])
         else ConfPush(cx, pc, locals, ops, tr + [ev], r))
    case None =>
      if |cx.callers| + 1 >= MAX_FRAMES then Failed(NestTooDeep, tr)
      else if callee.nlocals < |args| then Failed(BadCallee, tr)
      else if |cx.below| + |locals| + |ops| + callee.nlocals > STACK_SIZE then Failed(CallOverflow, tr)
      else Run(Conf(Enter(cx, callee, pc, locals, ops), 0, args + Zeros(callee.nlocals - |args|), [], tr))
  }

  lemma CallConf(m: Machine, cx: Cx, pc: nat, locals: seq<u64>, ops: seq<u64>, args: seq<u64>, tr: Trace, si: u32,
      idx: nat)
    requires si < |cx.fn.strings| && Lookup(RegNow(m, tr), cx.fn.strings[si]) == Some(idx) && |args| < TWO32
    ensures Exec(m, Conf(cx, pc, locals, ops + args, tr), CallI(si, |args|)) ==
            ConfCall(m, cx, RegNow(m, tr)[idx], pc, locals, ops, args, tr)
  {
    hide Lookup, RegNow, NewsAt, Frees;
    var vm := Conf(cx, pc, locals, ops + args, tr);
    var n := |vm.stack|;
    assert vm.stack == (cx.below + (locals + ops)) + args;
    assert vm.stack[n - |args|..] == args;
    assert vm.stack[..n - |args|] == cx.below + (locals + ops);
    var callee := RegNow(m, tr)[idx];
    if callee.builtin.Some? {
      var ev := Event(callee.builtin.value, args);
      var r := m.host(tr, ev);
      if r.Some? {
        ConfPushV(cx, pc, locals, ops, tr + [ev], r.value);
      }
    } else if callee.nlocals >= |args| {
      var z := Zeros(callee.nlocals - |args|);
      assert vm.stack + z == (cx.below + (locals + ops)) + ((args + z) + []);
    }
  }

  /** How a run of a called function, from its entry to its return, realises a
      call's result: the frame below gets one value in place of the arguments. */
  ghost predicate CallMatch(w: World, cx: Cx, vm: Vm, n: nat, r: CallRes, fuel: nat) {
    var o := Steps(w.m, vm, n);
    || Excused(o)
    || (match r
        case Result(v, tr) => vm.trace <= tr && o == Run(Vm(cx.below + [v], cx.callers, tr))
        case CallErr(e, tr) => o == Failed(e, tr) && IsRuntime(e)
        case CallTimeout => o.Run? && n >= fuel)
  }

  /** The CALL instruction and, for a user function, everything up to its
      return. `e` is the call, for termination. */
  lemma SimInvoke(s: Site, e: Expr, vm: Vm, n: nat, f: string, si: u32, pc: nat, locals: seq<u64>, ops: seq<u64>,
      args: seq<u64>,
                  st: Store, tr: Trace, fuel: nat)
    returns (n': nat)
    requires SiteOk(s) && LocalsOk(locals, s.env.syms, st) && fuel > 0
    requires s.since <= tr
    requires si < |s.env.strs| && s.env.strs[si] == f && Lookup(s.env.reg, f).Some? && |args| < TWO32
    requires At(s.cx.fn.code, pc, Enc(CallI(si, |args|))) && Reached(s, vm, n, pc, locals, ops + args, tr)
    ensures var r := CallFn(s.w, f, args, tr, fuel - 1);
      ExprMatch(s, vm, n', pc + |Enc(CallI(si, |args|))|, locals, ops,
        (match r case Result(v, tr1) => Ok([v], st, tr1)
                 case CallErr(err, tr1) => Err(err, tr1)
                 case CallTimeout => Timeout), fuel)
    decreases fuel, e, 0
  {
    hide Enc, Conf, Steps, LocalsOk, Slot, WorldsOk, Now, At, Step, Lookup, Exec, CallFn;
    GrowAlong(s.w, s.since, tr);
    NowIs(s.w, tr);
    var reg := Now(s.w, tr).m.reg;
    LookupThen(s.env.reg, Now(s.w, s.since).m.reg, reg, f);
    var idx := Lookup(reg, f).value;
    var callee := reg[idx];
    var i := CallI(si, |args|);
    var pc' := pc + |Enc(i)|;
    var at := Conf(s.cx, pc, locals, ops + args, tr);
    ConfFetch(s.w.m, s.cx, pc, locals, ops + args, tr, i);
    CallConf(s.w.m, s.cx, pc', locals, ops, args, tr, si, idx);
    StepsThen(s.w.m, vm, n, at, 1);
    StepsOne(s.w.m, at);
    n' := n + 1;
    CallFnEq(s.w, f, idx, args, tr, fuel - 1);
    if callee.builtin.Some? || !Steps(s.w.m, vm, n').Run? {
      return;
    }
    var cx1 := Enter(s.cx, callee, pc', locals, ops);
    var entry := Conf(cx1, 0, args + Zeros(callee.nlocals - |args|), [], tr);
    var k := SimFn(s.w, f, idx, cx1, args, tr, fuel - 1);
    ConfTrace(cx1, 0, args + Zeros(callee.nlocals - |args|), [], tr);
    StepsThen(s.w.m, vm, n', entry, k);
    n' := n' + k;
    var r := CallFn(s.w, f, args, tr, fuel - 1);
    if r.Result? {
      ReturnConf(s.cx, callee, pc', locals, ops, r.v, r.tr);
    }
  }

  lemma ConfTrace(cx: Cx, pc: nat, locals: seq<u64>, ops: seq<u64>, tr: Trace)
    ensures Conf(cx, pc, locals, ops, tr).trace == tr
  {
  }

  lemma LookupThen(r1: seq<Fn>, r2: seq<Fn>, r3: seq<Fn>, name: string)
    requires NamesGrow(r1, r2) && NamesGrow(r2, r3) && Lookup(r1, name).Some?
    ensures Lookup(r3, name).Some?
  {
    LookupStable(r1, r2, name);
    LookupStable(r2, r3, name);
  }

  lemma ReturnConf(cx: Cx, callee: Fn, pc: nat, locals: seq<u64>, ops: seq<u64>, v: u64, tr: Trace)
    ensures var cx1 := Enter(cx, callee, pc, locals, ops);
      Vm(cx1.below + [v], cx1.callers, tr) == Conf(cx, pc, locals, ops + [v], tr)
  {
    assert cx.below + (locals + ops) + [v] == cx.below + (locals + (ops + [v]));
  }

  lemma CallFnEq(w: World, f: string, idx: nat, args: seq<u64>, tr: Trace, fuel: nat)
    requires WorldsOk(w) && Lookup(Now(w, tr).m.reg, f) == Some(idx)
    ensures idx < |Now(w, tr).m.reg|
    ensures var b := Now(w, tr).m.reg[idx].builtin; b.Some? ==>
      CallFn(w, f, args, tr, fuel) ==
        (match w.m.host(tr, Event(b.value, args))
         case None => CallErr(BuiltinFailed, tr + [Event(b.value, args)])
         case Some(v) => Result(v, tr + [Event(b.value, args)]))
    ensures var c := Now(w, tr).m.reg[idx];
      c.builtin.None? && c.nlocals < |args| ==> CallFn(w, f, args, tr, fuel) == CallErr(BadCallee, tr)
  {
    hide ExecAll, FnCode, StmtsOk, Now;
    assert WorldOk(Now(w, tr));
  }

  lemma CallEq(s: Site, e: Expr, pc: nat, st: Store, tr: Trace, fuel: nat) returns (si: u32, count: u32)
    requires e.Call? && ExprOk(e, s.env.syms, s.env.reg) && HasStrs(e, s.env.strs) && |s.env.strs| <= MAX_STRINGS
    requires pc + |ExprCode(e, s.env, pc)| < TWO32
    ensures Lookup(s.env.reg, e.callee).Some?
    ensures ArgsOk(e.args, s.env.syms, s.env.reg) && HasAllStrs(e.args, s.env.strs)
    ensures si < |s.env.strs| && s.env.strs[si] == e.callee
    ensures var pads := Pads(s.env.reg, e.callee, |e.args|);
      && count == |e.args| + |pads|
      && ExprCode(e, s.env, pc) == ArgsCode(e.args, s.env, pc) + (PadCode(pads) + Enc(CallI(si, count)))
    ensures var r := PushAll(s.w, FxOf(s), e.args, st, tr, fuel);
      Pushes(s.w, FxOf(s), e, st, tr, fuel) ==
        if !r.Ok? then r
        else
          var all := r.ps + Pads(s.env.reg, e.callee, |e.args|);
          var k := |r.ps| - |e.args|;
          if fuel == 0 then Timeout
          else (match CallFn(s.w, e.callee, all[k..], r.tr, fuel - 1)
                case Result(v, tr2) => Ok(all[..k] + [v], r.st, tr2)
                case CallErr(err, tr2) => Err(err, tr2)
                case CallTimeout => Timeout)
  {
    hide Enc, Slot, PadCode, ArgsCode, PushAll, Lookup, ArityOk, CallFn;
    var pads := Pads(s.env.reg, e.callee, |e.args|);
    ArgsCodeSize(e.args, s.env, pc);
    PadCodeSize(pads);
    si := IndexOf(s.env.strs, e.callee);
    count := |e.args| + |pads|;
  }

  lemma SimCall(s: Site, e: Expr, pc: nat, locals: seq<u64>, ops: seq<u64>, st: Store, tr: Trace, fuel: nat)
    returns (n: nat, locals': seq<u64>)
    requires e.Call?
    requires ExprAt(s, e, pc, locals, st)
    requires s.since <= tr
    ensures ExprMatch(s, Conf(s.cx, pc, locals, ops, tr), n, pc + |ExprCode(e, s.env, pc)|, locals', ops,
                      Pushes(s.w, FxOf(s), e, st, tr, fuel), fuel)
    decreases fuel, e, 1
  {
    hide Enc, Conf, Steps, LocalsOk, Slot, Alu, WorldsOk, Now, NamesGrow, ExprCode, Pushes, ExprOk, HasStrs, At,
      PushAll, ArgsOk, HasAllStrs, ArgsCode, PadCode, Pads, CallFn, Lookup;
    AtEnd(s.cx.fn.code, pc, ExprCode(e, s.env, pc));
    var si, count := CallEq(s, e, pc, st, tr, fuel);
    var vm, code := Conf(s.cx, pc, locals, ops, tr), s.cx.fn.code;
    var ac, pads := ArgsCode(e.args, s.env, pc), Pads(s.env.reg, e.callee, |e.args|);
    var call := Enc(CallI(si, count));
    AtSplit(code, pc, ac, PadCode(pads) + call);
    AtSplit(code, pc + |ac|, PadCode(pads), call);
    var r := PushAll(s.w, FxOf(s), e.args, st, tr, fuel);
    n, locals' := SimArgs(s, e.args, pc, locals, ops, st, tr, fuel);
    if !Steps(s.w.m, vm, n).Run? || !r.Ok? {
      return;
    }
    LocalsSize(locals', s.env.syms, r.st);
    n := SimPads(s, vm, n, pads, pc + |ac|, locals', ops + r.ps, r.tr);
    if Excused(Steps(s.w.m, vm, n)) {
      return;
    }
    if fuel == 0 {
      return;
    }
    var all := r.ps + pads;
    var k := |r.ps| - |e.args|;
    assert ops + r.ps + pads == (ops + all[..k]) + all[k..];
    n := SimInvoke(s, e, vm, n, e.callee, si, pc + |ac| + |PadCode(pads)|, locals', ops + all[..k], all[k..], r.st,
      r.tr, fuel);
    var c := CallFn(s.w, e.callee, all[k..], r.tr, fuel - 1);
    if c.Result? {
      assert (ops + all[..k]) + [c.v] == ops + (all[..k] + [c.v]);
    }
  }

  // ---- statements ----

  /** `t` is accepted here, its variables and strings are in the final tables. */
  ghost predicate StmtIn(s: Site, t: Stmt, scope: seq<Sym>, inFn: bool) {
    && StmtOk(t, scope, s.env.reg, inFn)
    && |scope| <= MAX_LOCALS
    && SymsLe(SymsAfter(t, scope), s.env.syms)
    && StmtHas(t, scope, s.env.reg, s.env.strs)
  }

  ghost predicate StmtAt(s: Site, t: Stmt, scope: seq<Sym>, inFn: bool, pc: nat, locals: seq<u64>, st: Store) {
    StmtSite(s, t, scope, inFn, pc) && LocalsOk(locals, s.env.syms, st)
  }

  ghost predicate StmtSite(s: Site, t: Stmt, scope: seq<Sym>, inFn: bool, pc: nat) {
    && SiteOk(s)
    && (inFn ==> |s.cx.callers| > 0)
    && StmtIn(s, t, scope, inFn)
    && At(s.cx.fn.code, pc, StmtCode(t, scope, s.env, pc))
  }

  /** `ExprMatch` for statements: what they leave behind stays below whatever
      comes next, and a return hands its value to the caller's frame. */
  ghost predicate StmtMatch(s: Site, vm: Vm, n: nat, end: nat, locals: seq<u64>, ops: seq<u64>, r: StmtRes, fuel: nat) {
    var o := Steps(s.w.m, vm, n);
    || Excused(o)
    || (match r
        case Norm(leak, st, tr) => s.since <= tr && LocalsOk(locals, s.env.syms, st)
          && o == Run(Conf(s.cx, end, locals, ops + leak, tr))
        case Returned(v, tr) => s.since <= tr && |s.cx.callers| > 0 && o == Run(Vm(s.cx.below + [v], s.cx.callers, tr))
        case StmtErr(e, tr) => o == Failed(e, tr) && IsRuntime(e)
        case StmtTimeout => o.Run? && n >= fuel)
  }

  /** A run that reached this frame again and then realises `r` realises
      `After(leak, r)` from its start, and only takes longer. */
  lemma ContinueStmt(s: Site, vm: Vm, n: nat, pc: nat, l1: seq<u64>, ops: seq<u64>, leak: seq<u64>, tr: Trace,
                     k: nat, end: nat, locals: seq<u64>, r: StmtRes, fuel: nat, fuel': nat)
    requires Reached(s, vm, n, pc, l1, ops + leak, tr) && fuel' <= n + fuel
    requires StmtMatch(s, Conf(s.cx, pc, l1, ops + leak, tr), k, end, locals, ops + leak, r, fuel)
    ensures StmtMatch(s, vm, n + k, end, locals, ops, After(leak, r), fuel')
  {
    hide Steps, Conf, LocalsOk;
    StepsThen(s.w.m, vm, n, Conf(s.cx, pc, l1, ops + leak, tr), k);
    if r.Norm? {
      assert (ops + leak) + r.leak == ops + (leak + r.leak);
    }
  }

  lemma AfterAfter(a: seq<u64>, b: seq<u64>, r: StmtRes)
    ensures After(a, After(b, r)) == After(a + b, r)
  {
    if r.Norm? {
      assert a + (b + r.leak) == (a + b) + r.leak;
    }
  }

  /** An expression and POP. */
  lemma SimDrop(s: Site, e: Expr, pc: nat, locals: seq<u64>, ops: seq<u64>, st: Store, tr: Trace, fuel: nat)
    returns (n: nat, locals': seq<u64>)
    requires ExprAt(s, e, pc, locals, st) && At(s.cx.fn.code, pc + |ExprCode(e, s.env, pc)|, Enc(Pop))
    requires s.since <= tr
    ensures StmtMatch(s, Conf(s.cx, pc, locals, ops, tr), n, pc + |ExprCode(e, s.env, pc) + Enc(Pop)|, locals', ops,
                      Dropped(Pushes(s.w, FxOf(s), e, st, tr, fuel)), fuel)
    decreases fuel, e, 4
  {
    hide Enc, Conf, Steps, LocalsOk, Slot, Alu, WorldsOk, Now, NamesGrow, ExprCode, Pushes, ExprOk, HasStrs, At;
    var vm := Conf(s.cx, pc, locals, ops, tr);
    var c := ExprCode(e, s.env, pc);
    var r := Pushes(s.w, FxOf(s), e, st, tr, fuel);
    n, locals' := SimExpr(s, e, pc, locals, ops, st, tr, fuel);
    if !Steps(s.w.m, vm, n).Run? || !r.Ok? {
      return;
    }
    LocalsSize(locals', s.env.syms, r.st);
    Extend(s, vm, n, pc + |c|, locals', ops + r.ps, r.tr, Pop);
    n := n + 1;
    assert Init(ops + r.ps) == ops + Init(r.ps);
  }

  /** An expression and STORE. */
  lemma SimDecl(s: Site, x: string, e: Expr, pc: nat, locals: seq<u64>, ops: seq<u64>, st: Store, tr: Trace, fuel: nat)
    returns (n: nat, locals': seq<u64>)
    requires ExprAt(s, e, pc, locals, st) && Slot(s.env.syms, x) >= 0
    requires s.since <= tr
    requires At(s.cx.fn.code, pc + |ExprCode(e, s.env, pc)|, StoreCode(x, s.env))
    ensures StmtMatch(s, Conf(s.cx, pc, locals, ops, tr), n, pc + |ExprCode(e, s.env, pc) + StoreCode(x, s.env)|,
      locals', ops,
                      Declare(x, Pushes(s.w, FxOf(s), e, st, tr, fuel)), fuel)
    decreases fuel, e, 4
  {
    hide Enc, Conf, Steps, LocalsOk, Slot, Alu, WorldsOk, Now, NamesGrow, ExprCode, Pushes, ExprOk, HasStrs, At,
      StoreCode;
    var vm := Conf(s.cx, pc, locals, ops, tr);
    var c := ExprCode(e, s.env, pc);
    var r := Pushes(s.w, FxOf(s), e, st, tr, fuel);
    n, locals' := SimExpr(s, e, pc, locals, ops, st, tr, fuel);
    if !Steps(s.w.m, vm, n).Run? || !r.Ok? {
      return;
    }
    assert ops + r.ps == (ops + Init(r.ps)) + [Top(r.ps)];
    n, locals' := SimStore(s, vm, n, x, pc + |c|, locals', ops + Init(r.ps), Top(r.ps), r.st, r.tr);
  }

  lemma SimStmt(s: Site, t: Stmt, scope: seq<Sym>, inFn: bool, pc: nat, locals: seq<u64>, ops: seq<u64>, st: Store,
      tr: Trace, fuel: nat)
    returns (n: nat, locals': seq<u64>)
    requires StmtAt(s, t, scope, inFn, pc, locals, st)
    requires s.since <= tr
    ensures StmtMatch(s, Conf(s.cx, pc, locals, ops, tr), n, pc + |StmtCode(t, scope, s.env, pc)|, locals', ops,
                      ExecStmt(s.w, FxOf(s), t, scope, st, tr, fuel), fuel)
    decreases fuel, t, 4
  {
    hide Enc, Conf, Steps, LocalsOk, Slot, Alu, WorldsOk, Now, NamesGrow, ExprCode, Pushes, ExprOk, HasStrs, At, StmtOk,
      SymsAfter, StmtHas, StmtCode, SymsLe, ExecStmt, StmtMatch, StmtAt;
    match t
    case ExprStmt(_) => n, locals' := SimExprStmt(s, t, scope, inFn, pc, locals, ops, st, tr, fuel);
    case VarDecl(_, _, _) => n, locals' := SimVarDecl(s, t, scope, inFn, pc, locals, ops, st, tr, fuel);
    case Block(_) => n, locals' := SimBlock(s, t, scope, inFn, pc, locals, ops, st, tr, fuel);
    case If(_, _, els) =>
      if els.None? {
        n, locals' := SimIf(s, t, scope, inFn, pc, locals, ops, st, tr, fuel);
      } else {
        n, locals' := SimIfElse(s, t, scope, inFn, pc, locals, ops, st, tr, fuel);
      }
    case While(_, _) => n, locals' := SimWhile(s, t, scope, inFn, pc, locals, ops, st, tr, fuel);
    case For(_, _, _, _) => n, locals' := SimFor(s, t, scope, inFn, pc, locals, ops, st, tr, fuel);
    case Return(_) => n, locals' := SimReturn(s, t, scope, inFn, pc, locals, ops, st, tr, fuel);
    case FuncDecl(_, _, _, _) =>
      n, locals' := 0, locals;
      NoFuncDecl(s, t, scope, inFn, pc, locals, st);
  }

  /** The compiler refuses nested definitions. */
  lemma NoFuncDecl(s: Site, t: Stmt, scope: seq<Sym>, inFn: bool, pc: nat, locals: seq<u64>, st: Store)
    requires t.FuncDecl?
    ensures !StmtAt(s, t, scope, inFn, pc, locals, st)
  {
  }

  /** Nested expressions see the final symbol table. */
  lemma ExprHere(s: Site, e: Expr, scope: seq<Sym>)
    requires ExprOk(e, scope, s.env.reg) && SymsLe(scope, s.env.syms)
    ensures ExprOk(e, s.env.syms, s.env.reg)
  {
    ExprOkMono(e, scope, s.env.syms, s.env.reg);
  }

  lemma ScopeHere(s: Site, t: Stmt, scope: seq<Sym>, inFn: bool)
    requires StmtIn(s, t, scope, inFn)
    ensures SymsLe(scope, s.env.syms) && |SymsAfter(t, scope)| <= MAX_LOCALS
  {
    hide StmtOk, SymsAfter, StmtHas, Slot, SymsLe;
    SymsGrow(t, scope, s.env.reg, inFn);
    SymsLeTrans(scope, SymsAfter(t, scope), s.env.syms);
  }

  lemma ExprStmtEq(s: Site, t: Stmt, scope: seq<Sym>, inFn: bool, pc: nat, st: Store, tr: Trace, fuel: nat)
      returns (e: Expr)
    requires t.ExprStmt? && StmtIn(s, t, scope, inFn)
    ensures e == Effective(t.e, scope, s.env.reg)
    ensures SymsLe(scope, s.env.syms) && ExprOk(e, scope, s.env.reg) && HasStrs(e, s.env.strs)
    ensures StmtCode(t, scope, s.env, pc) == ExprCode(e, s.env, pc) + Enc(Pop)
    ensures ExecStmt(s.w, FxOf(s), t, scope, st, tr, fuel) ==
            if e == t.e then Dropped(Pushes(s.w, FxOf(s), e, st, tr, fuel))
            else Dropped(PushBare(s.w, FxOf(s), t.e, st, tr, fuel))
    ensures e != t.e ==> t.e.Var? && e == Call(t.e.name, [])
  {
    hide Enc, Slot, ExprCode, ExprOk, HasStrs, Pushes, PushBare, SymsLe;
    ScopeHere(s, t, scope, inFn);
    e := Effective(t.e, scope, s.env.reg);
  }

  lemma SimExprStmt(s: Site, t: Stmt, scope: seq<Sym>, inFn: bool, pc: nat, locals: seq<u64>, ops: seq<u64>, st: Store,
      tr: Trace, fuel: nat)
    returns (n: nat, locals': seq<u64>)
    requires t.ExprStmt?
    requires StmtAt(s, t, scope, inFn, pc, locals, st)
    requires s.since <= tr
    ensures StmtMatch(s, Conf(s.cx, pc, locals, ops, tr), n, pc + |StmtCode(t, scope, s.env, pc)|, locals', ops,
                      ExecStmt(s.w, FxOf(s), t, scope, st, tr, fuel), fuel)
    decreases fuel, t, 3
  {
    hide Enc, Conf, Steps, LocalsOk, Slot, Alu, WorldsOk, Now, NamesGrow, ExprCode, Pushes, ExprOk, HasStrs, At, StmtOk,
      SymsAfter, StmtHas, StmtCode, SymsLe, ExecStmt, PushBare, StmtIn, Effective;
    var e := ExprStmtEq(s, t, scope, inFn, pc, st, tr, fuel);
    ExprHere(s, e, scope);
    AtSplit(s.cx.fn.code, pc, ExprCode(e, s.env, pc), Enc(Pop));
    if e == t.e {
      n, locals' := SimDrop(s, e, pc, locals, ops, st, tr, fuel);
    } else {
      n := SimBare(s, t.e, e, pc, locals, ops, st, tr, fuel);
      locals' := locals;
    }
  }

  /** The statement `f;` for a function `f`: CALL with the defaults, and POP. */
  lemma SimBare(s: Site, v: Expr, e: Expr, pc: nat, locals: seq<u64>, ops: seq<u64>, st: Store, tr: Trace, fuel: nat)
    returns (n: nat)
    requires v.Var? && e == Call(v.name, []) && ExprAt(s, e, pc, locals, st)
    requires s.since <= tr
    requires At(s.cx.fn.code, pc + |ExprCode(e, s.env, pc)|, Enc(Pop))
    ensures StmtMatch(s, Conf(s.cx, pc, locals, ops, tr), n, pc + |ExprCode(e, s.env, pc) + Enc(Pop)|, locals, ops,
                      Dropped(PushBare(s.w, FxOf(s), v, st, tr, fuel)), fuel)
    decreases fuel, v, 1
  {
    hide Enc, Conf, Steps, LocalsOk, Slot, Alu, WorldsOk, Now, NamesGrow, ExprCode, Pushes, ExprOk, HasStrs, At,
      PadCode, Pads, CallFn, Lookup;
    AtEnd(s.cx.fn.code, pc, ExprCode(e, s.env, pc));
    var si, count := CallEq(s, e, pc, st, tr, fuel);
    var vm, code := Conf(s.cx, pc, locals, ops, tr), s.cx.fn.code;
    var pads, c := Pads(s.env.reg, v.name, 0), ExprCode(e, s.env, pc);
    var call := Enc(CallI(si, count));
    assert c == PadCode(pads) + call;
    AtSplit(code, pc, PadCode(pads), call);
    StepsZero(s.w.m, vm);
    LocalsSize(locals, s.env.syms, st);
    n := SimPads(s, vm, 0, pads, pc, locals, ops, tr);
    if Excused(Steps(s.w.m, vm, n)) || fuel == 0 {
      return;
    }
    n := SimInvoke(s, v, vm, n, v.name, si, pc + |PadCode(pads)|, locals, ops, pads, st, tr, fuel);
    var r := CallFn(s.w, v.name, pads, tr, fuel - 1);
    if r.Result? && Steps(s.w.m, vm, n).Run? {
      Extend(s, vm, n, pc + |c|, locals, ops + [r.v], r.tr, Pop);
      n := n + 1;
      assert Init(ops + [r.v]) == ops;
      assert ops + Init([r.v]) == ops;
    }
  }

  lemma VarDeclEq(s: Site, t: Stmt, scope: seq<Sym>, inFn: bool, pc: nat, st: Store, tr: Trace, fuel: nat)
    requires t.VarDecl? && StmtIn(s, t, scope, inFn)
    ensures Slot(s.env.syms, t.name) >= 0
    ensures t.init.Some? ==> ExprOk(t.init.value, s.env.syms, s.env.reg) && HasStrs(t.init.value, s.env.strs)
    ensures StmtCode(t, scope, s.env, pc) == DeclCode(t.name, t.init, s.env, pc)
    ensures ExecStmt(s.w, FxOf(s), t, scope, st, tr, fuel) == ExecDecl(s.w, FxOf(s), t.name, t.init, st, tr, fuel)
  {
    hide Enc, ExprCode, ExprOk, HasStrs, Pushes, SymsLe, Slot;
    DeclHere(s, t.name, t.ty, t.init, scope);
  }

  lemma DeclHere(s: Site, x: string, ty: nat, init: Option<Expr>, scope: seq<Sym>)
    requires DeclOk(x, scope) && OptOk(init, scope + [Sym(x, ty)], s.env.reg)
      && SymsLe(scope + [Sym(x, ty)], s.env.syms)
    ensures Slot(s.env.syms, x) >= 0
    ensures init.Some? ==> ExprOk(init.value, s.env.syms, s.env.reg)
  {
    hide ExprOk, SymsLe;
    SlotStable(scope + [Sym(x, ty)], s.env.syms, x);
    if init.Some? {
      ExprHere(s, init.value, scope + [Sym(x, ty)]);
    }
  }

  lemma SimVarDecl(s: Site, t: Stmt, scope: seq<Sym>, inFn: bool, pc: nat, locals: seq<u64>, ops: seq<u64>, st: Store,
      tr: Trace, fuel: nat)
    returns (n: nat, locals': seq<u64>)
    requires t.VarDecl?
    requires StmtAt(s, t, scope, inFn, pc, locals, st)
    requires s.since <= tr
    ensures StmtMatch(s, Conf(s.cx, pc, locals, ops, tr), n, pc + |StmtCode(t, scope, s.env, pc)|, locals', ops,
                      ExecStmt(s.w, FxOf(s), t, scope, st, tr, fuel), fuel)
    decreases fuel, t, 3
  {
    hide Enc, Conf, Steps, LocalsOk, Slot, Alu, WorldsOk, Now, NamesGrow, ExprCode, Pushes, ExprOk, HasStrs, At, StmtOk,
      SymsAfter, StmtHas, StmtCode, SymsLe, ExecStmt, StoreCode, StmtIn;
    VarDeclEq(s, t, scope, inFn, pc, st, tr, fuel);
    if t.init.None? {
      n, locals' := 0, locals;
      StepsZero(s.w.m, Conf(s.cx, pc, locals, ops, tr));
      assert ops + [] == ops;
    } else {
      var c := ExprCode(t.init.value, s.env, pc);
      AtSplit(s.cx.fn.code, pc, c, StoreCode(t.name, s.env));
      n, locals' := SimDecl(s, t.name, t.init.value, pc, locals, ops, st, tr, fuel);
    }
  }

  lemma ReturnEq(s: Site, t: Stmt, scope: seq<Sym>, inFn: bool, pc: nat, st: Store, tr: Trace, fuel: nat)
    requires t.Return? && StmtIn(s, t, scope, inFn)
    ensures inFn
    ensures t.value.Some? ==> ExprOk(t.value.value, s.env.syms, s.env.reg) && HasStrs(t.value.value, s.env.strs)
    ensures StmtCode(t, scope, s.env, pc) ==
            (if t.value.Some? then ExprCode(t.value.value, s.env, pc) else Enc(Push(0))) + Enc(Ret)
    ensures ExecStmt(s.w, FxOf(s), t, scope, st, tr, fuel) ==
            if t.value.None? then Returned(0, tr)
            else
              var r := Pushes(s.w, FxOf(s), t.value.value, st, tr, fuel);
              if r.Ok? then Returned(Top(r.ps), r.tr) else Abrupt(r)
  {
    hide Enc, ExprCode, ExprOk, HasStrs, Pushes, SymsLe, Slot;
    ScopeHere(s, t, scope, inFn);
    if t.value.Some? {
      ExprHere(s, t.value.value, scope);
    }
  }

  lemma SimRet(s: Site, vm: Vm, n: nat, pc: nat, locals: seq<u64>, ops: seq<u64>, v: u64, tr: Trace)
    requires |s.cx.callers| > 0 && At(s.cx.fn.code, pc, Enc(Ret)) && Reached(s, vm, n, pc, locals, ops + [v], tr)
    ensures var o := Steps(s.w.m, vm, n + 1);
      Excused(o) || o == Run(Vm(s.cx.below + [v], s.cx.callers, tr))
  {
    hide Enc, Steps, Step;
    var at := Conf(s.cx, pc, locals, ops + [v], tr);
    ConfFetch(s.w.m, s.cx, pc, locals, ops + [v], tr, Ret);
    StepsThen(s.w.m, vm, n, at, 1);
    StepsOne(s.w.m, at);
    var at1 := Conf(s.cx, pc + |Enc(Ret)|, locals, ops + [v], tr);
    assert at1.stack[..|s.cx.below|] == s.cx.below;
    assert at1.frames[..|at1.frames| - 1] == s.cx.callers;
  }

  /** PUSH 0, RET: `return;` and the end of a function body. */
  lemma SimRetZero(s: Site, vm: Vm, n: nat, pc: nat, locals: seq<u64>, ops: seq<u64>, st: Store, tr: Trace)
      returns (n': nat)
    requires SiteOk(s) && LocalsOk(locals, s.env.syms, st) && |s.cx.callers| > 0
    requires s.since <= tr
    requires At(s.cx.fn.code, pc, Enc(Push(0))) && At(s.cx.fn.code, pc + |Enc(Push(0))|, Enc(Ret))
    requires Reached(s, vm, n, pc, locals, ops, tr)
    ensures var o := Steps(s.w.m, vm, n');
      Excused(o) || o == Run(Vm(s.cx.below + [0], s.cx.callers, tr))
  {
    hide Enc, Conf, Steps, Slot, WorldsOk, Now, NamesGrow, At;
    Extend(s, vm, n, pc, locals, ops, tr, Push(0));
    n' := n + 1;
    if !Full(s.cx, locals, ops) {
      SimRet(s, vm, n', pc + |Enc(Push(0))|, locals, ops, 0, tr);
      n' := n' + 1;
    }
  }

  lemma SimReturn(s: Site, t: Stmt, scope: seq<Sym>, inFn: bool, pc: nat, locals: seq<u64>, ops: seq<u64>, st: Store,
      tr: Trace, fuel: nat)
    returns (n: nat, locals': seq<u64>)
    requires t.Return?
    requires StmtAt(s, t, scope, inFn, pc, locals, st)
    requires s.since <= tr
    ensures StmtMatch(s, Conf(s.cx, pc, locals, ops, tr), n, pc + |StmtCode(t, scope, s.env, pc)|, locals', ops,
                      ExecStmt(s.w, FxOf(s), t, scope, st, tr, fuel), fuel)
    decreases fuel, t, 3
  {
    hide Enc, Conf, Steps, LocalsOk, Slot, Alu, WorldsOk, Now, NamesGrow, ExprCode, Pushes, ExprOk, HasStrs, At, StmtOk,
      SymsAfter, StmtHas, StmtCode, SymsLe, ExecStmt, StmtIn, SiteOk;
    ReturnEq(s, t, scope, inFn, pc, st, tr, fuel);
    var vm := Conf(s.cx, pc, locals, ops, tr);
    locals' := locals;
    if t.value.None? {
      AtSplit(s.cx.fn.code, pc, Enc(Push(0)), Enc(Ret));
      StepsZero(s.w.m, vm);
      n := SimRetZero(s, vm, 0, pc, locals, ops, st, tr);
    } else {
      var e := t.value.value;
      AtSplit(s.cx.fn.code, pc, ExprCode(e, s.env, pc), Enc(Ret));
      var r := Pushes(s.w, FxOf(s), e, st, tr, fuel);
      n, locals' := SimExpr(s, e, pc, locals, ops, st, tr, fuel);
      if !Steps(s.w.m, vm, n).Run? || !r.Ok? {
        return;
      }
      assert ops + r.ps == (ops + Init(r.ps)) + [Top(r.ps)];
      SimRet(s, vm, n, pc + |ExprCode(e, s.env, pc)|, locals', ops + Init(r.ps), Top(r.ps), r.tr);
      n := n + 1;
    }
  }

  // ---- sequences ----

  ghost predicate AllAt(s: Site, ts: seq<Stmt>, scope: seq<Sym>, inFn: bool, pc: nat, locals: seq<u64>, st: Store) {
    && SiteOk(s)
    && (inFn ==> |s.cx.callers| > 0)
    && StmtsOk(ts, scope, s.env.reg, inFn)
    && |scope| <= MAX_LOCALS
    && SymsLe(SymsAfterAll(ts, scope), s.env.syms)
    && StmtsHas(ts, scope, s.env.reg, s.env.strs)
    && At(s.cx.fn.code, pc, StmtsCode(ts, scope, s.env, pc))
    && LocalsOk(locals, s.env.syms, st)
  }

  lemma AllEq(s: Site, ts: seq<Stmt>, scope: seq<Sym>, inFn: bool, pc: nat, locals: seq<u64>, st: Store, tr: Trace,
      fuel: nat)
    requires |ts| > 0 && AllAt(s, ts, scope, inFn, pc, locals, st)
    requires s.since <= tr
    ensures StmtAt(s, ts[0], scope, inFn, pc, locals, st)
    ensures var c := StmtCode(ts[0], scope, s.env, pc); var sc := SymsAfter(ts[0], scope);
      && StmtsCode(ts, scope, s.env, pc) == c + StmtsCode(ts[1..], sc, s.env, pc + |c|)
      && forall l, st1 :: LocalsOk(l, s.env.syms, st1) ==> AllAt(s, ts[1..], sc, inFn, pc + |c|, l, st1)
    ensures var r := ExecStmt(s.w, FxOf(s), ts[0], scope, st, tr, fuel);
      ExecAll(s.w, FxOf(s), ts, scope, st, tr, fuel) ==
        if r.Norm? then After(r.leak, ExecAll(s.w, FxOf(s), ts[1..], SymsAfter(ts[0], scope), r.st, r.tr, fuel)) else r
  {
    hide Enc, LocalsOk, Slot, WorldsOk, Now, NamesGrow, At, StmtOk, SymsAfter, StmtHas, StmtCode, SymsLe, ExecStmt,
      SiteOk;
    var c, sc := StmtCode(ts[0], scope, s.env, pc), SymsAfter(ts[0], scope);
    AtSplit(s.cx.fn.code, pc, c, StmtsCode(ts[1..], sc, s.env, pc + |c|));
    SymsGrow(ts[0], scope, s.env.reg, inFn);
    SymsGrowAll(ts[1..], sc, s.env.reg, inFn);
    SymsLeTrans(sc, SymsAfterAll(ts[1..], sc), s.env.syms);
  }

  lemma SimAll(s: Site, ts: seq<Stmt>, scope: seq<Sym>, inFn: bool, pc: nat, locals: seq<u64>, ops: seq<u64>, st: Store,
      tr: Trace, fuel: nat)
    returns (n: nat, locals': seq<u64>)
    requires AllAt(s, ts, scope, inFn, pc, locals, st)
    requires s.since <= tr
    ensures StmtMatch(s, Conf(s.cx, pc, locals, ops, tr), n, pc + |StmtsCode(ts, scope, s.env, pc)|, locals', ops,
                      ExecAll(s.w, FxOf(s), ts, scope, st, tr, fuel), fuel)
    decreases fuel, ts, 0
  {
    hide Enc, Conf, Steps, LocalsOk, Slot, WorldsOk, Now, NamesGrow, At, StmtOk, SymsAfter, StmtHas, StmtCode, SymsLe,
      ExecStmt, SiteOk, StmtAt;
    var vm := Conf(s.cx, pc, locals, ops, tr);
    if |ts| == 0 {
      n, locals' := 0, locals;
      StepsZero(s.w.m, vm);
      assert ops + [] == ops;
      return;
    }
    AllEq(s, ts, scope, inFn, pc, locals, st, tr, fuel);
    var c, sc := StmtCode(ts[0], scope, s.env, pc), SymsAfter(ts[0], scope);
    var r := ExecStmt(s.w, FxOf(s), ts[0], scope, st, tr, fuel);
    var l1;
    n, l1 := SimStmt(s, ts[0], scope, inFn, pc, locals, ops, st, tr, fuel);
    locals' := l1;
    if Excused(Steps(s.w.m, vm, n)) || !r.Norm? {
      return;
    }
    var k;
    k, locals' := SimAll(s, ts[1..], sc, inFn, pc + |c|, l1, ops + r.leak, r.st, r.tr, fuel);
    ContinueStmt(s, vm, n, pc + |c|, l1, ops, r.leak, r.tr, k, pc + |StmtsCode(ts, scope, s.env, pc)|, locals',
                 ExecAll(s.w, FxOf(s), ts[1..], sc, r.st, r.tr, fuel), fuel, fuel);
    n := n + k;
  }

  lemma BlockEq(s: Site, t: Stmt, scope: seq<Sym>, inFn: bool, pc: nat, locals: seq<u64>, st: Store, tr: Trace,
      fuel: nat)
    requires t.Block? && StmtAt(s, t, scope, inFn, pc, locals, st)
    requires s.since <= tr
    ensures AllAt(s, t.body, scope, inFn, pc, locals, st)
    ensures StmtCode(t, scope, s.env, pc) == StmtsCode(t.body, scope, s.env, pc)
    ensures ExecStmt(s.w, FxOf(s), t, scope, st, tr, fuel) == ExecAll(s.w, FxOf(s), t.body, scope, st, tr, fuel)
  {
    hide Enc, LocalsOk, Slot, WorldsOk, Now, NamesGrow, At, SymsLe, SiteOk, StmtsCode, ExecAll;
  }

  lemma SimBlock(s: Site, t: Stmt, scope: seq<Sym>, inFn: bool, pc: nat, locals: seq<u64>, ops: seq<u64>, st: Store,
      tr: Trace, fuel: nat)
    returns (n: nat, locals': seq<u64>)
    requires t.Block?
    requires StmtAt(s, t, scope, inFn, pc, locals, st)
    requires s.since <= tr
    ensures StmtMatch(s, Conf(s.cx, pc, locals, ops, tr), n, pc + |StmtCode(t, scope, s.env, pc)|, locals', ops,
                      ExecStmt(s.w, FxOf(s), t, scope, st, tr, fuel), fuel)
    decreases fuel, t, 3
  {
    hide Enc, Conf, Steps, LocalsOk, Slot, Alu, WorldsOk, Now, NamesGrow, ExprCode, Pushes, ExprOk, HasStrs, At, StmtOk,
      SymsAfter, StmtHas, StmtCode, SymsLe, ExecStmt, AllAt, StmtAt, StmtMatch, ExecAll, StmtsCode;
    BlockEq(s, t, scope, inFn, pc, locals, st, tr, fuel);
    n, locals' := SimAll(s, t.body, scope, inFn, pc, locals, ops, st, tr, fuel);
  }

  // ---- branches ----

  /** A condition and the jump that leaves when it is zero. */
  lemma SimGuard(s: Site, c: Expr, pc: nat, t: u32, locals: seq<u64>, ops: seq<u64>, st: Store, tr: Trace, fuel: nat)
    returns (n: nat, locals': seq<u64>)
    requires ExprAt(s, c, pc, locals, st) && At(s.cx.fn.code, pc + |ExprCode(c, s.env, pc)|, Enc(JmpF(t)))
    requires s.since <= tr
    ensures var vm, r := Conf(s.cx, pc, locals, ops, tr), Pushes(s.w, FxOf(s), c, st, tr, fuel);
      var o := Steps(s.w.m, vm, n);
      || Excused(o)
      || (match r
          case Ok(ps, st1, tr1) =>
            && n >= 1 && s.since <= tr1 && LocalsOk(locals', s.env.syms, st1)
            && Reached(s, vm, n, if Top(ps) == 0 then
               t else pc + |ExprCode(c, s.env, pc)| + 5, locals', ops + Init(ps), tr1)
          case Err(e, tr1) => o == Failed(e, tr1) && IsRuntime(e)
          case Timeout => o.Run? && n >= fuel)
    decreases fuel, c, 4
  {
    hide Enc, Conf, Steps, LocalsOk, Slot, Alu, WorldsOk, Now, NamesGrow, ExprCode, Pushes, ExprOk, HasStrs, At;
    var vm := Conf(s.cx, pc, locals, ops, tr);
    var r := Pushes(s.w, FxOf(s), c, st, tr, fuel);
    n, locals' := SimExpr(s, c, pc, locals, ops, st, tr, fuel);
    if !Steps(s.w.m, vm, n).Run? || !r.Ok? {
      return;
    }
    LocalsSize(locals', s.env.syms, r.st);
    JumpFSize(t);
    Extend(s, vm, n, pc + |ExprCode(c, s.env, pc)|, locals', ops + r.ps, r.tr, JmpF(t));
    n := n + 1;
    assert Init(ops + r.ps) == ops + Init(r.ps);
  }

  lemma JumpFSize(t: u32)
    ensures |Enc(JmpF(t))| == 5 && |Enc(Jmp(t))| == 5
  {
  }

  /** A statement and the jump behind it. */
  lemma JumpAfter(s: Site, vm: Vm, n: nat, end: nat, t: u32, locals: seq<u64>, ops: seq<u64>, r: StmtRes, fuel: nat)
    returns (n': nat)
    requires SiteOk(s) && At(s.cx.fn.code, end, Enc(Jmp(t))) && StmtMatch(s, vm, n, end, locals, ops, r, fuel)
    ensures StmtMatch(s, vm, n', t, locals, ops, r, fuel)
    ensures r.Norm? && !Excused(Steps(s.w.m, vm, n')) ==> n' == n + 1
  {
    hide Enc, Conf, Steps, LocalsOk, Slot, WorldsOk, Now, NamesGrow, At;
    n' := n;
    if r.Norm? && !Excused(Steps(s.w.m, vm, n)) {
      LocalsSize(locals, s.env.syms, r.st);
      Extend(s, vm, n, end, locals, ops + r.leak, r.tr, Jmp(t));
      n' := n + 1;
    }
  }

  /** An `if` in place: its condition, its branch, and where they join. */
  ghost predicate IfParts(s: Site, t: Stmt, scope: seq<Sym>, inFn: bool, pc: nat)
    requires t.If?
  {
    var cc := ExprCode(t.cond, s.env, pc);
    var p1 := pc + |cc| + 5;
    var end := p1 + |StmtCode(t.thn, scope, s.env, p1)|;
    && ExprSite(s, t.cond, pc)
    && StmtSite(s, t.thn, scope, inFn, p1)
    && end == pc + |StmtCode(t, scope, s.env, pc)| < TWO32
    && At(s.cx.fn.code, pc + |cc|, Enc(JmpF(end)))
  }

  lemma IfLayoutParts(code: seq<byte>, cc: seq<byte>, ct: seq<byte>, pc: nat)
    requires At(code, pc, IfLayout(cc, ct, pc)) && |code| < TWO32
    ensures
      var end := pc + |cc| + 5 + |ct|;
      && end == pc + |IfLayout(cc, ct, pc)| < TWO32
      && At(code, pc, cc) && At(code, pc + |cc|, Enc(JmpF(end))) && At(code, pc + |cc| + 5, ct)
  {
    hide Enc, At;
    var end := pc + |cc| + 5 + |ct|;
    JumpFSize(ToU32(end));
    AtEnd(code, pc, IfLayout(cc, ct, pc));
    AtSplit(code, pc, cc, Enc(JmpF(ToU32(end))) + ct);
    AtSplit(code, pc + |cc|, Enc(JmpF(ToU32(end))), ct);
  }

  lemma IfScopes(s: Site, t: Stmt, scope: seq<Sym>, inFn: bool)
    requires t.If? && StmtIn(s, t, scope, inFn)
    ensures ExprOk(t.cond, s.env.syms, s.env.reg) && HasStrs(t.cond, s.env.strs)
    ensures StmtIn(s, t.thn, scope, inFn)
    ensures t.els.Some? ==> StmtIn(s, t.els.value, SymsAfter(t.thn, scope), inFn)
  {
    hide Enc, Slot, SymsLe, ExprOk, HasStrs;
    ScopeHere(s, t, scope, inFn);
    ExprHere(s, t.cond, scope);
    if t.els.Some? {
      var sc := SymsAfter(t.thn, scope);
      SymsGrow(t.thn, scope, s.env.reg, inFn);
      SymsGrow(t.els.value, sc, s.env.reg, inFn);
      SymsLeTrans(sc, SymsAfter(t, scope), s.env.syms);
    }
  }

  lemma IfSite(s: Site, t: Stmt, scope: seq<Sym>, inFn: bool, pc: nat)
    requires t.If? && t.els.None? && StmtSite(s, t, scope, inFn, pc)
    ensures IfParts(s, t, scope, inFn, pc)
  {
    hide Enc, Slot, WorldsOk, Now, NamesGrow, At, SymsLe, ExprCode, ExprOk, HasStrs, StmtIn, IfLayout;
    IfScopes(s, t, scope, inFn);
    var cc := ExprCode(t.cond, s.env, pc);
    IfLayoutParts(s.cx.fn.code, cc, StmtCode(t.thn, scope, s.env, pc + |cc| + 5), pc);
  }

  lemma IfEq(s: Site, t: Stmt, scope: seq<Sym>, st: Store, tr: Trace, fuel: nat)
    requires t.If? && t.els.None?
    ensures var r := Pushes(s.w, FxOf(s), t.cond, st, tr, fuel);
      ExecStmt(s.w, FxOf(s), t, scope, st, tr, fuel) ==
        if !r.Ok? then Abrupt(r)
        else if Top(r.ps) != 0 then After(Init(r.ps), ExecStmt(s.w, FxOf(s), t.thn, scope, r.st, r.tr, fuel))
        else Norm(Init(r.ps), r.st, r.tr)
  {
    hide Pushes;
    var r := Pushes(s.w, FxOf(s), t.cond, st, tr, fuel);
    if r.Ok? {
      assert Init(r.ps) + [] == Init(r.ps);
    }
  }

  lemma SimIf(s: Site, t: Stmt, scope: seq<Sym>, inFn: bool, pc: nat, locals: seq<u64>, ops: seq<u64>, st: Store,
      tr: Trace, fuel: nat)
    returns (n: nat, locals': seq<u64>)
    requires t.If? && t.els.None?
    requires StmtAt(s, t, scope, inFn, pc, locals, st)
    requires s.since <= tr
    ensures StmtMatch(s, Conf(s.cx, pc, locals, ops, tr), n, pc + |StmtCode(t, scope, s.env, pc)|, locals', ops,
                      ExecStmt(s.w, FxOf(s), t, scope, st, tr, fuel), fuel)
    decreases fuel, t, 0
  {
    hide Enc, Conf, Steps, LocalsOk, Slot, Alu, WorldsOk, Now, NamesGrow, ExprCode, Pushes, ExprOk, HasStrs, At, StmtOk,
      SymsAfter, StmtHas, StmtCode, SymsLe, ExecStmt, StmtIn, SiteOk;
    IfSite(s, t, scope, inFn, pc);
    IfEq(s, t, scope, st, tr, fuel);
    var vm, r := Conf(s.cx, pc, locals, ops, tr), Pushes(s.w, FxOf(s), t.cond, st, tr, fuel);
    var cc := ExprCode(t.cond, s.env, pc);
    var p1 := pc + |cc| + 5;
    var end := pc + |StmtCode(t, scope, s.env, pc)|;
    n, locals' := SimGuard(s, t.cond, pc, end, locals, ops, st, tr, fuel);
    if Excused(Steps(s.w.m, vm, n)) || !r.Ok? || Top(r.ps) == 0 {
      return;
    }
    var k, l2 := SimStmt(s, t.thn, scope, inFn, p1, locals', ops + Init(r.ps), r.st, r.tr, fuel);
    ContinueStmt(s, vm, n, p1, locals', ops, Init(r.ps), r.tr, k, end, l2,
                 ExecStmt(s.w, FxOf(s), t.thn, scope, r.st, r.tr, fuel), fuel, fuel);
    n, locals' := n + k, l2;
  }

  ghost predicate IfElseParts(s: Site, t: Stmt, scope: seq<Sym>, inFn: bool, pc: nat)
    requires t.If? && t.els.Some?
  {
    var cc := ExprCode(t.cond, s.env, pc);
    var p1 := pc + |cc| + 5;
    var e1 := p1 + |StmtCode(t.thn, scope, s.env, p1)|;
    var end := pc + |StmtCode(t, scope, s.env, pc)|;
    var sc := SymsAfter(t.thn, scope);
    && ExprSite(s, t.cond, pc)
    && StmtSite(s, t.thn, scope, inFn, p1)
    && StmtSite(s, t.els.value, sc, inFn, e1 + 5)
    && end == e1 + 5 + |StmtCode(t.els.value, sc, s.env, e1 + 5)| < TWO32
    && At(s.cx.fn.code, pc + |cc|, Enc(JmpF(e1 + 5)))
    && At(s.cx.fn.code, e1, Enc(Jmp(end)))
  }

  lemma IfElseSite(s: Site, t: Stmt, scope: seq<Sym>, inFn: bool, pc: nat)
    requires t.If? && t.els.Some? && StmtSite(s, t, scope, inFn, pc)
    ensures IfElseParts(s, t, scope, inFn, pc)
  {
    hide Enc, Slot, WorldsOk, Now, NamesGrow, At, SymsLe, ExprCode, ExprOk, HasStrs, StmtIn, IfElseLayout;
    IfScopes(s, t, scope, inFn);
    var sc := SymsAfter(t.thn, scope);
    var cc := ExprCode(t.cond, s.env, pc);
    var p1 := pc + |cc| + 5;
    var ct := StmtCode(t.thn, scope, s.env, p1);
    IfElseLayoutParts(s.cx.fn.code, cc, ct, StmtCode(t.els.value, sc, s.env, p1 + |ct| + 5), pc);
  }

  lemma IfElseLayoutParts(code: seq<byte>, cc: seq<byte>, ct: seq<byte>, cf: seq<byte>, pc: nat)
    requires At(code, pc, IfElseLayout(cc, ct, cf, pc)) && |code| < TWO32
    ensures
      var e1 := pc + |cc| + 5 + |ct|;
      var end := e1 + 5 + |cf|;
      && end == pc + |IfElseLayout(cc, ct, cf, pc)| < TWO32
      && At(code, pc, cc) && At(code, pc + |cc|, Enc(JmpF(e1 + 5))) && At(code, pc + |cc| + 5, ct)
      && At(code, e1, Enc(Jmp(end))) && At(code, e1 + 5, cf)
  {
    hide Enc, At;
    var e1 := pc + |cc| + 5 + |ct|;
    var end := e1 + 5 + |cf|;
    var j, a := Enc(JmpF(ToU32(e1 + 5))), Enc(Jmp(ToU32(end)));
    JumpFSize(ToU32(e1 + 5));
    JumpFSize(ToU32(end));
    AtEnd(code, pc, IfElseLayout(cc, ct, cf, pc));
    AtSplit(code, pc, cc, j + (ct + (a + cf)));
    AtSplit(code, pc + |cc|, j, ct + (a + cf));
    AtSplit(code, pc + |cc| + 5, ct, a + cf);
    AtSplit(code, e1, a, cf);
  }

  lemma IfElseEq(s: Site, t: Stmt, scope: seq<Sym>, st: Store, tr: Trace, fuel: nat)
    requires t.If? && t.els.Some?
    ensures var r := Pushes(s.w, FxOf(s), t.cond, st, tr, fuel);
      ExecStmt(s.w, FxOf(s), t, scope, st, tr, fuel) ==
        if !r.Ok? then Abrupt(r)
        else if Top(r.ps) != 0 then After(Init(r.ps), ExecStmt(s.w, FxOf(s), t.thn, scope, r.st, r.tr, fuel))
        else After(Init(r.ps), ExecStmt(s.w, FxOf(s), t.els.value, SymsAfter(t.thn, scope), r.st, r.tr, fuel))
  {
    hide Pushes, SymsAfter;
  }

  lemma SimIfElse(s: Site, t: Stmt, scope: seq<Sym>, inFn: bool, pc: nat, locals: seq<u64>, ops: seq<u64>, st: Store,
      tr: Trace, fuel: nat)
    returns (n: nat, locals': seq<u64>)
    requires t.If? && t.els.Some?
    requires StmtAt(s, t, scope, inFn, pc, locals, st)
    requires s.since <= tr
    ensures StmtMatch(s, Conf(s.cx, pc, locals, ops, tr), n, pc + |StmtCode(t, scope, s.env, pc)|, locals', ops,
                      ExecStmt(s.w, FxOf(s), t, scope, st, tr, fuel), fuel)
    decreases fuel, t, 0
  {
    hide Enc, Conf, Steps, LocalsOk, Slot, Alu, WorldsOk, Now, NamesGrow, ExprCode, Pushes, ExprOk, HasStrs, At, StmtOk,
      SymsAfter, StmtHas, StmtCode, SymsLe, ExecStmt, StmtIn;
    IfElseSite(s, t, scope, inFn, pc);
    IfElseEq(s, t, scope, st, tr, fuel);
    var vm, r := Conf(s.cx, pc, locals, ops, tr), Pushes(s.w, FxOf(s), t.cond, st, tr, fuel);
    var cc := ExprCode(t.cond, s.env, pc);
    var p1 := pc + |cc| + 5;
    var e1 := p1 + |StmtCode(t.thn, scope, s.env, p1)|;
    var end := pc + |StmtCode(t, scope, s.env, pc)|;
    var k, l2;
    n, locals' := SimGuard(s, t.cond, pc, e1 + 5, locals, ops, st, tr, fuel);
    if Excused(Steps(s.w.m, vm, n)) || !r.Ok? {
      return;
    }
    if Top(r.ps) != 0 {
      var rt := ExecStmt(s.w, FxOf(s), t.thn, scope, r.st, r.tr, fuel);
      k, l2 := SimStmt(s, t.thn, scope, inFn, p1, locals', ops + Init(r.ps), r.st, r.tr, fuel);
      ContinueStmt(s, vm, n, p1, locals', ops, Init(r.ps), r.tr, k, e1, l2, rt, fuel, fuel);
      n := JumpAfter(s, vm, n + k, e1, end, l2, ops, After(Init(r.ps), rt), fuel);
    } else {
      var sc := SymsAfter(t.thn, scope);
      k, l2 := SimStmt(s, t.els.value, sc, inFn, e1 + 5, locals', ops + Init(r.ps), r.st, r.tr, fuel);
      ContinueStmt(s, vm, n, e1 + 5, locals', ops, Init(r.ps), r.tr, k, end, l2,
                   ExecStmt(s.w, FxOf(s), t.els.value, sc, r.st, r.tr, fuel), fuel, fuel);
      n := n + k;
    }
    locals' := l2;
  }

  // ---- loops ----

  ghost predicate WhileParts(s: Site, t: Stmt, scope: seq<Sym>, inFn: bool, pc: nat)
    requires t.While?
  {
    var cc := ExprCode(t.cond, s.env, pc);
    var p1 := pc + |cc| + 5;
    var e1 := p1 + |StmtCode(t.loop, scope, s.env, p1)|;
    && ExprSite(s, t.cond, pc)
    && StmtSite(s, t.loop, scope, inFn, p1)
    && pc + |StmtCode(t, scope, s.env, pc)| == e1 + 5 < TWO32
    && At(s.cx.fn.code, pc + |cc|, Enc(JmpF(e1 + 5)))
    && At(s.cx.fn.code, e1, Enc(Jmp(pc)))
  }

  lemma WhileLayoutParts(code: seq<byte>, cc: seq<byte>, cb: seq<byte>, pc: nat)
    requires At(code, pc, WhileLayout(cc, cb, pc)) && |code| < TWO32
    ensures
      var e1 := pc + |cc| + 5 + |cb|;
      && e1 + 5 == pc + |WhileLayout(cc, cb, pc)| < TWO32
      && At(code, pc, cc) && At(code, pc + |cc|, Enc(JmpF(e1 + 5))) && At(code, pc + |cc| + 5, cb)
      && At(code, e1, Enc(Jmp(pc)))
  {
    hide Enc, At;
    var e1 := pc + |cc| + 5 + |cb|;
    var j, a := Enc(JmpF(ToU32(e1 + 5))), Enc(Jmp(ToU32(pc)));
    JumpFSize(ToU32(e1 + 5));
    JumpFSize(ToU32(pc));
    AtEnd(code, pc, WhileLayout(cc, cb, pc));
    AtSplit(code, pc, cc, j + (cb + a));
    AtSplit(code, pc + |cc|, j, cb + a);
    AtSplit(code, pc + |cc| + 5, cb, a);
  }

  lemma WhileScopes(s: Site, t: Stmt, scope: seq<Sym>, inFn: bool)
    requires t.While? && StmtIn(s, t, scope, inFn)
    ensures ExprOk(t.cond, s.env.syms, s.env.reg) && HasStrs(t.cond, s.env.strs)
    ensures StmtIn(s, t.loop, scope, inFn)
  {
    hide Enc, Slot, SymsLe, ExprOk, HasStrs;
    ScopeHere(s, t, scope, inFn);
    ExprHere(s, t.cond, scope);
  }

  lemma WhileSite(s: Site, t: Stmt, scope: seq<Sym>, inFn: bool, pc: nat)
    requires t.While? && StmtSite(s, t, scope, inFn, pc)
    ensures WhileParts(s, t, scope, inFn, pc)
  {
    hide Enc, Slot, WorldsOk, Now, NamesGrow, At, SymsLe, ExprCode, ExprOk, HasStrs, StmtIn, WhileLayout;
    WhileScopes(s, t, scope, inFn);
    var cc := ExprCode(t.cond, s.env, pc);
    WhileLayoutParts(s.cx.fn.code, cc, StmtCode(t.loop, scope, s.env, pc + |cc| + 5), pc);
  }

  lemma WhileEq(s: Site, t: Stmt, scope: seq<Sym>, st: Store, tr: Trace, fuel: nat)
    requires t.While?
    ensures var r := Pushes(s.w, FxOf(s), t.cond, st, tr, fuel);
      ExecStmt(s.w, FxOf(s), t, scope, st, tr, fuel) ==
        if !r.Ok? then Abrupt(r)
        else if Top(r.ps) == 0 then Norm(Init(r.ps), r.st, r.tr)
        else if fuel == 0 then StmtTimeout
        else
          var rb := ExecStmt(s.w, FxOf(s), t.loop, scope, r.st, r.tr, fuel);
          After(Init(r.ps), if rb.Norm? then
            After(rb.leak, ExecStmt(s.w, FxOf(s), t, scope, rb.st, rb.tr, fuel - 1)) else rb)
  {
    hide Pushes, SymsAfter;
  }

  lemma SimWhile(s: Site, t: Stmt, scope: seq<Sym>, inFn: bool, pc: nat, locals: seq<u64>, ops: seq<u64>, st: Store,
      tr: Trace, fuel: nat)
    returns (n: nat, locals': seq<u64>)
    requires t.While?
    requires StmtAt(s, t, scope, inFn, pc, locals, st)
    requires s.since <= tr
    ensures StmtMatch(s, Conf(s.cx, pc, locals, ops, tr), n, pc + |StmtCode(t, scope, s.env, pc)|, locals', ops,
                      ExecStmt(s.w, FxOf(s), t, scope, st, tr, fuel), fuel)
    decreases fuel, t, 3
  {
    hide Enc, Conf, Steps, LocalsOk, Slot, Alu, WorldsOk, Now, NamesGrow, ExprCode, Pushes, ExprOk, HasStrs, At, StmtOk,
      SymsAfter, StmtHas, StmtCode, SymsLe, ExecStmt, StmtIn;
    WhileSite(s, t, scope, inFn, pc);
    WhileEq(s, t, scope, st, tr, fuel);
    var vm, r := Conf(s.cx, pc, locals, ops, tr), Pushes(s.w, FxOf(s), t.cond, st, tr, fuel);
    var p1 := pc + |ExprCode(t.cond, s.env, pc)| + 5;
    var e1 := p1 + |StmtCode(t.loop, scope, s.env, p1)|;
    n, locals' := SimGuard(s, t.cond, pc, e1 + 5, locals, ops, st, tr, fuel);
    if Excused(Steps(s.w.m, vm, n)) || !r.Ok? || Top(r.ps) == 0 || fuel == 0 {
      return;
    }
    var rb := ExecStmt(s.w, FxOf(s), t.loop, scope, r.st, r.tr, fuel);
    var k, l2 := SimStmt(s, t.loop, scope, inFn, p1, locals', ops + Init(r.ps), r.st, r.tr, fuel);
    ContinueStmt(s, vm, n, p1, locals', ops, Init(r.ps), r.tr, k, e1, l2, rb, fuel, fuel);
    n := JumpAfter(s, vm, n + k, e1, pc, l2, ops, After(Init(r.ps), rb), fuel);
    locals' := l2;
    if Excused(Steps(s.w.m, vm, n)) || !rb.Norm? {
      return;
    }
    var leak := Init(r.ps) + rb.leak;
    var rest := ExecStmt(s.w, FxOf(s), t, scope, rb.st, rb.tr, fuel - 1);
    k, l2 := SimWhile(s, t, scope, inFn, pc, locals', ops + leak, rb.st, rb.tr, fuel - 1);
    ContinueStmt(s, vm, n, pc, locals', ops, leak, rb.tr, k, e1 + 5, l2, rest, fuel - 1, fuel);
    AfterAfter(Init(r.ps), rb.leak, rest);
    n, locals' := n + k, l2;
  }

  /** A `for` from its test on, in place. */
  ghost predicate LoopSite(s: Site, t: Stmt, sc: seq<Sym>, inFn: bool, top: nat)
    requires t.For?
  {
    var code := s.cx.fn.code;
    var ct := TestCode(t.test, s.env, top);
    var p1 := LoopBody(s, t, top);
    var e1 := p1 + |StmtCode(t.loop, sc, s.env, p1)|;
    var e2 := e1 + |PostCode(t.post, s.env, e1)|;
    && (t.test.Some? ==> ExprSite(s, t.test.value, top) && At(code, top + |ct|, Enc(JmpF(ToU32(e2 + 5)))))
    && StmtSite(s, t.loop, sc, inFn, p1)
    && (t.post.Some? ==> ExprSite(s, t.post.value, e1) && At(code, e1 + |ExprCode(t.post.value, s.env, e1)|, Enc(Pop)))
    && At(code, e2, Enc(Jmp(ToU32(top))))
    && e2 + 5 < TWO32
  }

  function LoopBody(s: Site, t: Stmt, top: nat): nat
    requires t.For?
  {
    top + |TestCode(t.test, s.env, top)| + (if t.test.Some? then 5 else 0)
  }

  function LoopEnd(s: Site, t: Stmt, sc: seq<Sym>, top: nat): nat
    requires t.For?
  {
    var p1 := LoopBody(s, t, top);
    var e1 := p1 + |StmtCode(t.loop, sc, s.env, p1)|;
    e1 + |PostCode(t.post, s.env, e1)| + 5
  }

  lemma ForParts(code: seq<byte>, ct: seq<byte>, hasTest: bool, cb: seq<byte>, cp: seq<byte>, top: nat)
    requires At(code, top, ForLayout(ct, hasTest, cb, cp, top)) && |code| < TWO32
    ensures
      var p1 := top + |ct| + (if hasTest then 5 else 0);
      var e2 := p1 + |cb| + |cp|;
      && e2 + 5 == top + |ForLayout(ct, hasTest, cb, cp, top)| < TWO32
      && At(code, top, ct) && (hasTest ==> At(code, top + |ct|, Enc(JmpF(ToU32(e2 + 5)))))
      && At(code, p1, cb) && At(code, p1 + |cb|, cp) && At(code, e2, Enc(Jmp(ToU32(top))))
  {
    hide Enc, At;
    var p1 := top + |ct| + (if hasTest then 5 else 0);
    var e2 := p1 + |cb| + |cp|;
    var j := if hasTest then Enc(JmpF(ToU32(e2 + 5))) else [];
    var a := Enc(Jmp(ToU32(top)));
    JumpFSize(ToU32(e2 + 5));
    JumpFSize(ToU32(top));
    AtEnd(code, top, ForLayout(ct, hasTest, cb, cp, top));
    AtSplit(code, top, ct, j + (cb + (cp + a)));
    AtSplit(code, top + |ct|, j, cb + (cp + a));
    AtSplit(code, p1, cb, cp + a);
    AtSplit(code, p1 + |cb|, cp, a);
  }

  /** The start of a `for`, in place. */
  ghost predicate StartSite(s: Site, st: ForInit, pc: nat) {
    match st
    case NoInit => true
    case DeclInit(x, _, init) =>
      && Slot(s.env.syms, x) >= 0
      && (init.Some? ==>
         ExprSite(s, init.value, pc) && At(s.cx.fn.code, pc + |ExprCode(init.value, s.env, pc)|, StoreCode(x, s.env)))
    case ExprInit(e) => ExprSite(s, e, pc) && At(s.cx.fn.code, pc + |ExprCode(e, s.env, pc)|, Enc(Pop))
  }

  lemma StartHere(s: Site, st: ForInit, scope: seq<Sym>, pc: nat)
    requires SiteOk(s) && StartOk(st, scope, s.env.reg) && StartHas(st, s.env.strs)
    requires SymsLe(StartSyms(st, scope), s.env.syms) && At(s.cx.fn.code, pc, StartCode(st, s.env, pc))
    ensures StartSite(s, st, pc)
  {
    hide Enc, Slot, WorldsOk, Now, NamesGrow, At, SymsLe, ExprCode, ExprOk, HasStrs, StoreCode;
    match st
    case NoInit =>
    case DeclInit(x, ty, init) =>
      DeclHere(s, x, ty, init, scope);
      if init.Some? {
        AtSplit(s.cx.fn.code, pc, ExprCode(init.value, s.env, pc), StoreCode(x, s.env));
      }
    case ExprInit(e) =>
      ExprHere(s, e, scope);
      AtSplit(s.cx.fn.code, pc, ExprCode(e, s.env, pc), Enc(Pop));
  }

  lemma ForSite(s: Site, t: Stmt, scope: seq<Sym>, inFn: bool, pc: nat)
    requires t.For? && StmtSite(s, t, scope, inFn, pc)
    ensures StartSite(s, t.start, pc)
    ensures var top := pc + |StartCode(t.start, s.env, pc)|;
      && LoopSite(s, t, StartSyms(t.start, scope), inFn, top)
      && pc + |StmtCode(t, scope, s.env, pc)| == LoopEnd(s, t, StartSyms(t.start, scope), top)
  {
    hide Enc, Slot, WorldsOk, Now, NamesGrow, At, SymsLe, ExprCode, ExprOk, HasStrs, StartCode, StartSite, StartOk,
      StartHas, ForLayout;
    var sc := StartSyms(t.start, scope);
    ForScopes(s, t, scope, inFn);
    var ci := StartCode(t.start, s.env, pc);
    var top := pc + |ci|;
    var ct := TestCode(t.test, s.env, top);
    var p1 := LoopBody(s, t, top);
    var cb := StmtCode(t.loop, sc, s.env, p1);
    var cp := PostCode(t.post, s.env, p1 + |cb|);
    AtSplit(s.cx.fn.code, pc, ci, ForLayout(ct, t.test.Some?, cb, cp, top));
    ForParts(s.cx.fn.code, ct, t.test.Some?, cb, cp, top);
    StartHere(s, t.start, scope, pc);
    if t.post.Some? {
      AtSplit(s.cx.fn.code, p1 + |cb|, ExprCode(t.post.value, s.env, p1 + |cb|), Enc(Pop));
    }
  }

  lemma ForScopes(s: Site, t: Stmt, scope: seq<Sym>, inFn: bool)
    requires t.For? && StmtIn(s, t, scope, inFn)
    ensures var sc := StartSyms(t.start, scope);
      && |sc| <= MAX_LOCALS && SymsLe(sc, s.env.syms)
      && StmtIn(s, t.loop, sc, inFn)
      && StartOk(t.start, scope, s.env.reg) && StartHas(t.start, s.env.strs)
      && (t.test.Some? ==> ExprOk(t.test.value, s.env.syms, s.env.reg) && HasStrs(t.test.value, s.env.strs))
      && (t.post.Some? ==> ExprOk(t.post.value, s.env.syms, s.env.reg) && HasStrs(t.post.value, s.env.strs))
  {
    hide Enc, Slot, SymsLe, ExprOk, HasStrs;
    var sc := StartSyms(t.start, scope);
    SymsGrow(t.loop, sc, s.env.reg, inFn);
    SymsLeTrans(sc, SymsAfter(t.loop, sc), s.env.syms);
    if t.test.Some? { ExprHere(s, t.test.value, sc); }
    if t.post.Some? { ExprHere(s, t.post.value, SymsAfter(t.loop, sc)); }
  }

  lemma SimStart(s: Site, i: ForInit, pc: nat, locals: seq<u64>, ops: seq<u64>, st: Store, tr: Trace, fuel: nat)
    returns (n: nat, locals': seq<u64>)
    requires SiteOk(s) && StartSite(s, i, pc) && LocalsOk(locals, s.env.syms, st)
    requires s.since <= tr
    ensures StmtMatch(s, Conf(s.cx, pc, locals, ops, tr), n, pc + |StartCode(i, s.env, pc)|, locals', ops,
                      ExecStart(s.w, FxOf(s), i, st, tr, fuel), fuel)
    decreases fuel, i, 0
  {
    hide Enc, Conf, Steps, LocalsOk, Slot, Alu, WorldsOk, Now, NamesGrow, ExprCode, Pushes, ExprOk, HasStrs, At,
      StoreCode, SiteOk;
    StepsZero(s.w.m, Conf(s.cx, pc, locals, ops, tr));
    assert ops + [] == ops;
    match i
    case NoInit => n, locals' := 0, locals;
    case DeclInit(x, _, init) =>
      if init.None? {
        n, locals' := 0, locals;
      } else {
        n, locals' := SimDecl(s, x, init.value, pc, locals, ops, st, tr, fuel);
      }
    case ExprInit(e) => n, locals' := SimDrop(s, e, pc, locals, ops, st, tr, fuel);
  }

  lemma ForEq(s: Site, t: Stmt, scope: seq<Sym>, st: Store, tr: Trace, fuel: nat)
    requires t.For?
    ensures var r := ExecStart(s.w, FxOf(s), t.start, st, tr, fuel);
      ExecStmt(s.w, FxOf(s), t, scope, st, tr, fuel) ==
        if r.Norm? then After(r.leak, ExecLoop(s.w, FxOf(s), t, StartSyms(t.start, scope), r.st, r.tr, fuel)) else r
  {
    hide Pushes, ExecStart, ExecLoop;
  }

  lemma SimFor(s: Site, t: Stmt, scope: seq<Sym>, inFn: bool, pc: nat, locals: seq<u64>, ops: seq<u64>, st: Store,
      tr: Trace, fuel: nat)
    returns (n: nat, locals': seq<u64>)
    requires t.For?
    requires StmtAt(s, t, scope, inFn, pc, locals, st)
    requires s.since <= tr
    ensures StmtMatch(s, Conf(s.cx, pc, locals, ops, tr), n, pc + |StmtCode(t, scope, s.env, pc)|, locals', ops,
                      ExecStmt(s.w, FxOf(s), t, scope, st, tr, fuel), fuel)
    decreases fuel, t, 3
  {
    hide Enc, Conf, Steps, LocalsOk, Slot, Alu, WorldsOk, Now, NamesGrow, ExprCode, Pushes, ExprOk, HasStrs, At, StmtOk,
      SymsAfter, StmtHas, StmtCode, SymsLe, ExecStmt, StmtIn, ExecStart, ExecLoop, StartCode, StartSite, LoopSite,
      LoopEnd, SiteOk;
    ForSite(s, t, scope, inFn, pc);
    ForEq(s, t, scope, st, tr, fuel);
    var vm, r := Conf(s.cx, pc, locals, ops, tr), ExecStart(s.w, FxOf(s), t.start, st, tr, fuel);
    var sc, top := StartSyms(t.start, scope), pc + |StartCode(t.start, s.env, pc)|;
    n, locals' := SimStart(s, t.start, pc, locals, ops, st, tr, fuel);
    if Excused(Steps(s.w.m, vm, n)) || !r.Norm? {
      return;
    }
    var k, l2 := SimLoop(s, t, sc, inFn, top, locals', ops + r.leak, r.st, r.tr, fuel);
    ContinueStmt(s, vm, n, top, locals', ops, r.leak, r.tr, k, LoopEnd(s, t, sc, top), l2,
                 ExecLoop(s.w, FxOf(s), t, sc, r.st, r.tr, fuel), fuel, fuel);
    n, locals' := n + k, l2;
  }

  lemma LoopEq(s: Site, t: Stmt, sc: seq<Sym>, st: Store, tr: Trace, fuel: nat)
    requires t.For?
    ensures var r := if t.test.Some? then Pushes(s.w, FxOf(s), t.test.value, st, tr, fuel) else Ok([1], st, tr);
      ExecLoop(s.w, FxOf(s), t, sc, st, tr, fuel) ==
        if !r.Ok? then Abrupt(r)
        else if Top(r.ps) == 0 then Norm(Init(r.ps), r.st, r.tr)
        else if fuel == 0 then StmtTimeout
        else
          var rb := ExecStmt(s.w, FxOf(s), t.loop, sc, r.st, r.tr, fuel);
          After(Init(r.ps), if rb.Norm? then After(rb.leak, ExecPost(s.w, FxOf(s), t, sc, rb.st, rb.tr, fuel)) else rb)
  {
    hide Pushes, ExecPost, ExecStmt;
  }

  lemma SimLoop(s: Site, t: Stmt, sc: seq<Sym>, inFn: bool, top: nat, locals: seq<u64>, ops: seq<u64>, st: Store,
      tr: Trace, fuel: nat)
    returns (n: nat, locals': seq<u64>)
    requires t.For? && LoopSite(s, t, sc, inFn, top) && LocalsOk(locals, s.env.syms, st)
    requires s.since <= tr
    ensures StmtMatch(s, Conf(s.cx, top, locals, ops, tr), n, LoopEnd(s, t, sc, top), locals', ops,
                      ExecLoop(s.w, FxOf(s), t, sc, st, tr, fuel), fuel)
    decreases fuel, t, 2
  {
    hide Enc, Conf, Steps, LocalsOk, Slot, Alu, WorldsOk, Now, NamesGrow, ExprCode, Pushes, ExprOk, HasStrs, At, StmtOk,
      SymsAfter, StmtHas, StmtCode, SymsLe, ExecStmt, StmtIn, ExecLoop, ExecPost, PostCode, SiteOk;
    LoopEq(s, t, sc, st, tr, fuel);
    var vm := Conf(s.cx, top, locals, ops, tr);
    var r := if t.test.Some? then Pushes(s.w, FxOf(s), t.test.value, st, tr, fuel) else Ok([1], st, tr);
    var p1 := LoopBody(s, t, top);
    var e1 := p1 + |StmtCode(t.loop, sc, s.env, p1)|;
    if t.test.Some? {
      n, locals' := SimGuard(s, t.test.value, top, LoopEnd(s, t, sc, top), locals, ops, st, tr, fuel);
    } else {
      n, locals' := 0, locals;
      StepsZero(s.w.m, vm);
      assert ops + Init([1]) == ops;
    }
    if Excused(Steps(s.w.m, vm, n)) || !r.Ok? || Top(r.ps) == 0 || fuel == 0 {
      return;
    }
    var rb := ExecStmt(s.w, FxOf(s), t.loop, sc, r.st, r.tr, fuel);
    var k, l2 := SimStmt(s, t.loop, sc, inFn, p1, locals', ops + Init(r.ps), r.st, r.tr, fuel);
    ContinueStmt(s, vm, n, p1, locals', ops, Init(r.ps), r.tr, k, e1, l2, rb, fuel, fuel);
    n, locals' := n + k, l2;
    if Excused(Steps(s.w.m, vm, n)) || !rb.Norm? {
      return;
    }
    var leak := Init(r.ps) + rb.leak;
    var rest := ExecPost(s.w, FxOf(s), t, sc, rb.st, rb.tr, fuel);
    k, l2 := SimPost(s, t, sc, inFn, top, locals', ops + leak, rb.st, rb.tr, fuel);
    ContinueStmt(s, vm, n, e1, locals', ops, leak, rb.tr, k, LoopEnd(s, t, sc, top), l2, rest, fuel, fuel);
    AfterAfter(Init(r.ps), rb.leak, rest);
    n, locals' := n + k, l2;
  }

  lemma PostEq(s: Site, t: Stmt, sc: seq<Sym>, st: Store, tr: Trace, fuel: nat)
    requires t.For? && fuel > 0
    ensures var r := if t.post.Some? then
      Dropped(Pushes(s.w, FxOf(s), t.post.value, st, tr, fuel)) else Norm([], st, tr);
      ExecPost(s.w, FxOf(s), t, sc, st, tr, fuel) ==
        if r.Norm? then After(r.leak, ExecLoop(s.w, FxOf(s), t, sc, r.st, r.tr, fuel - 1)) else r
  {
    hide Pushes, ExecLoop;
    var r := ExecLoop(s.w, FxOf(s), t, sc, st, tr, fuel - 1);
    if r.Norm? {
      assert [] + r.leak == r.leak;
    }
  }

  lemma SimPost(s: Site, t: Stmt, sc: seq<Sym>, inFn: bool, top: nat, locals: seq<u64>, ops: seq<u64>, st: Store,
      tr: Trace, fuel: nat)
    returns (n: nat, locals': seq<u64>)
    requires t.For? && LoopSite(s, t, sc, inFn, top) && LocalsOk(locals, s.env.syms, st) && fuel > 0
    requires s.since <= tr
    ensures var e1 := LoopBody(s, t, top) + |StmtCode(t.loop, sc, s.env, LoopBody(s, t, top))|;
      StmtMatch(s, Conf(s.cx, e1, locals, ops, tr), n, LoopEnd(s, t, sc, top), locals', ops,
                ExecPost(s.w, FxOf(s), t, sc, st, tr, fuel), fuel)
    decreases fuel, t, 1
  {
    hide Enc, Conf, Steps, LocalsOk, Slot, Alu, WorldsOk, Now, NamesGrow, ExprCode, Pushes, ExprOk, HasStrs, At, StmtOk,
      SymsAfter, StmtHas, StmtCode, SymsLe, ExecStmt, StmtIn, ExecLoop, ExecPost;
    PostEq(s, t, sc, st, tr, fuel);
    var e1 := LoopBody(s, t, top) + |StmtCode(t.loop, sc, s.env, LoopBody(s, t, top))|;
    var e2 := e1 + |PostCode(t.post, s.env, e1)|;
    var vm := Conf(s.cx, e1, locals, ops, tr);
    var r := if t.post.Some? then Dropped(Pushes(s.w, FxOf(s), t.post.value, st, tr, fuel)) else Norm([], st, tr);
    if t.post.Some? {
      n, locals' := SimDrop(s, t.post.value, e1, locals, ops, st, tr, fuel);
    } else {
      n, locals' := 0, locals;
      StepsZero(s.w.m, vm);
      assert ops + [] == ops;
    }
    n := JumpAfter(s, vm, n, e2, top, locals', ops, r, fuel);
    if Excused(Steps(s.w.m, vm, n)) || !r.Norm? {
      return;
    }
    var k, l2 := SimLoop(s, t, sc, inFn, top, locals', ops + r.leak, r.st, r.tr, fuel - 1);
    ContinueStmt(s, vm, n, top, locals', ops, r.leak, r.tr, k, LoopEnd(s, t, sc, top), l2,
                 ExecLoop(s.w, FxOf(s), t, sc, r.st, r.tr, fuel - 1), fuel - 1, fuel);
    n, locals' := n + k, l2;
  }

  // ---- functions ----

  lemma {:induction false} BindGet(syms: seq<Sym>, args: seq<u64>, x: string)
    requires Slot(syms, x) >= 0
    ensures Get(Bind(syms, args), x) == if Slot(syms, x) < |args| then args[Slot(syms, x)] else 0
    decreases |syms|
  {
    var k := |syms| - 1;
    if syms[k].name != x {
      BindGet(syms[..k], args, x);
    }
  }

  /** The slots a call sets up hold the callee's initial store. */
  lemma BindOk(syms: seq<Sym>, args: seq<u64>)
    requires |args| <= |syms|
    ensures LocalsOk(args + Zeros(|syms| - |args|), syms, Bind(syms, args))
  {
    forall x | Slot(syms, x) >= 0
      ensures (args + Zeros(|syms| - |args|))[Slot(syms, x)] == Get(Bind(syms, args), x)
    {
      BindGet(syms, args, x);
    }
  }

  lemma FnSite(w: World, f: string, idx: nat, cx: Cx, args: seq<u64>, tr: Trace, fuel: nat)
    returns (s: Site, ts: seq<Stmt>, scope: seq<Sym>)
    requires WorldsOk(w) && Lookup(Now(w, tr).m.reg, f) == Some(idx)
    requires cx.fn == Now(w, tr).m.reg[idx] && cx.fn.builtin.None?
    requires |cx.callers| > 0 && |args| <= cx.fn.nlocals
    ensures s.w == w && s.cx == cx && s.since == tr
    ensures AllAt(s, ts, scope, true, 0, args + Zeros(cx.fn.nlocals - |args|), Bind(s.env.syms, args))
    ensures var c := StmtsCode(ts, scope, s.env, 0);
      At(cx.fn.code, |c|, Enc(Push(0))) && At(cx.fn.code, |c| + |Enc(Push(0))|, Enc(Ret))
    ensures CallFn(w, f, args, tr, fuel) ==
      (match ExecAll(w, FxOf(s), ts, scope, Bind(s.env.syms, args), tr, fuel)
       case Norm(_, _, tr1) => Result(0, tr1)
       case Returned(v, tr1) => Result(v, tr1)
       case StmtErr(err, tr1) => CallErr(err, tr1)
       case StmtTimeout => CallTimeout)
  {
    hide Enc, StmtsOk, SymsAfterAll, StmtsStrs, StmtsHas, StmtsCode, ExecAll, Bind, LocalsOk, Slot, SymsLe, NamesGrow,
      At, Lookup, Register, Now;
    assert WorldOk(Now(w, tr));
    var d := Now(w, tr).defs[idx];
    var env := FnEnv(d.decl.params, d.decl.body, d.reg);
    ts, scope := d.decl.body, ParamSyms(d.decl.params);
    s := Site(w, cx, env, tr);
    BindOk(env.syms, args);
    StmtsStrsGrow(ts, scope, d.reg, []);
    SymsGrowAll(ts, scope, d.reg, true);
    SymsLeRefl(env.syms);
    var c := StmtsCode(ts, scope, env, 0);
    WholeAt(cx.fn.code);
    AtSplit(cx.fn.code, 0, c, Enc(Push(0)) + Enc(Ret));
    AtSplit(cx.fn.code, |c|, Enc(Push(0)), Enc(Ret));
  }

  lemma WholeAt(code: seq<byte>)
    ensures At(code, 0, code)
  {
  }

  /** A called function, from its first instruction to its return. */
  lemma SimFn(w: World, f: string, idx: nat, cx: Cx, args: seq<u64>, tr: Trace, fuel: nat) returns (n: nat)
    requires WorldsOk(w) && Lookup(Now(w, tr).m.reg, f) == Some(idx)
    requires cx.fn == Now(w, tr).m.reg[idx] && cx.fn.builtin.None?
    requires |cx.callers| > 0 && |args| <= cx.fn.nlocals
    ensures CallMatch(w, cx, Conf(cx, 0, args + Zeros(cx.fn.nlocals - |args|), [], tr), n, CallFn(w, f, args, tr, fuel),
      fuel)
    decreases fuel
  {
    hide Enc, Conf, Steps, LocalsOk, Slot, WorldsOk, Now, NamesGrow, At, ExecAll, StmtsCode, CallFn, Bind, Lookup,
      AllAt;
    var s, ts, scope := FnSite(w, f, idx, cx, args, tr, fuel);
    var l0, st := args + Zeros(cx.fn.nlocals - |args|), Bind(s.env.syms, args);
    var vm, r := Conf(cx, 0, l0, [], tr), ExecAll(w, FxOf(s), ts, scope, st, tr, fuel);
    var c := StmtsCode(ts, scope, s.env, 0);
    ConfTrace(cx, 0, l0, [], tr);
    var l1;
    n, l1 := SimAll(s, ts, scope, true, 0, l0, [], st, tr, fuel);
    if Excused(Steps(w.m, vm, n)) || !r.Norm? {
      return;
    }
    AllSite(s, ts, scope, true, 0, l0, st);
    n := SimRetZero(s, vm, n, |c|, l1, [] + r.leak, r.st, r.tr);
  }

  lemma AllSite(s: Site, ts: seq<Stmt>, scope: seq<Sym>, inFn: bool, pc: nat, locals: seq<u64>, st: Store)
    requires AllAt(s, ts, scope, inFn, pc, locals, st)
    ensures SiteOk(s)
  {
  }
}
