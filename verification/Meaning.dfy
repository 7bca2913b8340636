/** NOC as documented: expressions have one value, `&&` and `||` short-circuit to
    0 or 1, prefix `++` yields the new value, statements leave nothing. Compiled
    code agrees exactly where no `&&`, `||` or prefix `++`/`--` occurs. */
module Meaning {
  import opened Wrappers
  import opened Word
  import opened Ast
  import opened Bytecode
  import opened CodeGen
  import opened Linking
  import opened Vm
  import opened Config
  import opened Compiled

  datatype Answer =
    | Gives(v: u64, st: Store, tr: Trace)
    | Aborts(e: Error, tr: Trace)
    | Unfinished

  datatype Answers =
    | GiveAll(vs: seq<u64>, st: Store, tr: Trace)
    | AbortAll(e: Error, tr: Trace)
    | UnfinishedAll

  datatype Effect =
    | Done(st: Store, tr: Trace)
    | Yields(v: u64, tr: Trace)
    | Dies(e: Error, tr: Trace)
    | Runs

  function Binary(op: AluOp, a: u64, b: u64, st: Store, tr: Trace): Answer {
    match Alu(op, a, b)
    case Value(v) => Gives(v, st, tr)
    case DivZero => Aborts(DivisionByZero, tr)
    case DivFault => Aborts(DivideFault, tr)
  }

  function SetTo(x: string, r: Answer): Answer {
    if r.Gives? then r.(st := r.st[x := r.v]) else r
  }

  function Eval(w: World, fx: Fx, e: Expr, st: Store, tr: Trace, fuel: nat): Answer
    decreases fuel, e, 1
  {
    match e
    case Lit(v) => Gives(v, st, tr)
    case StrLit(t) => Gives(w.m.lit(fx.name, t), st, tr)
    case Var(x) => Gives(Get(st, x), st, tr)
    case Call(f, args) =>
      (match EvalAll(w, fx, args, st, tr, fuel)
       case GiveAll(vs, st1, tr1) =>
         if fuel == 0 then Unfinished else Apply(w, f, vs + Pads(fx.reg, f, |args|), st1, tr1, fuel - 1)
       case AbortAll(err, tr1) => Aborts(err, tr1)
       case UnfinishedAll => Unfinished)
    case Bin(op, a, b) =>
      (match Eval(w, fx, a, st, tr, fuel)
       case Gives(va, st1, tr1) =>
         (match Eval(w, fx, b, st1, tr1, fuel)
          case Gives(vb, st2, tr2) => Binary(op, va, vb, st2, tr2)
          case r => r)
       case r => r)
    case AndAnd(a, b) =>
      (match Eval(w, fx, a, st, tr, fuel)
       case Gives(va, st1, tr1) => if va == 0 then Gives(0, st1, tr1) else Truth(Eval(w, fx, b, st1, tr1, fuel))
       case r => r)
    case OrOr(a, b) =>
      (match Eval(w, fx, a, st, tr, fuel)
       case Gives(va, st1, tr1) => if va != 0 then Gives(1, st1, tr1) else Truth(Eval(w, fx, b, st1, tr1, fuel))
       case r => r)
    case Un(op, a) =>
      (match Eval(w, fx, a, st, tr, fuel)
       case Gives(v, st1, tr1) => Gives(UnOf(op, v), st1, tr1)
       case r => r)
    case PreInc(a, up) =>
      var x := if a.Var? then a.name else "";
      SetTo(x, Gives(Wrap(Get(st, x) + StepOf(up)), st, tr))
    case PostInc(x, up) => Gives(Get(st, x), st[x := Wrap(Get(st, x) + StepOf(up))], tr)
    case Assign(op, x, a) =>
      var r := Eval(w, fx, a, st, tr, fuel);
      if op.Set? || !r.Gives? then SetTo(x, r) else SetTo(x, Binary(op.op, Get(st, x), r.v, r.st, r.tr))
  }

  function Truth(r: Answer): Answer {
    if r.Gives? then r.(v := Bool64(r.v != 0)) else r
  }

  function EvalAll(w: World, fx: Fx, es: seq<Expr>, st: Store, tr: Trace, fuel: nat): Answers
    decreases fuel, es, 0
  {
    if |es| == 0 then GiveAll([], st, tr)
    else match Eval(w, fx, es[0], st, tr, fuel)
      case Gives(v, st1, tr1) =>
        (match EvalAll(w, fx, es[1..], st1, tr1, fuel)
         case GiveAll(vs, st2, tr2) => GiveAll([v] + vs, st2, tr2)
         case r => r)
      case Aborts(err, tr1) => AbortAll(err, tr1)
      case Unfinished => UnfinishedAll
  }

  /** A call: builtins answer from outside; a function that ends without a
      return yields 0. */
  function Apply(w: World, f: string, args: seq<u64>, st: Store, tr: Trace, fuel: nat): Answer
    decreases fuel
  {
    var reg, defs := Now(w, tr).m.reg, Now(w, tr).defs;
    match Lookup(reg, f)
    case None => Aborts(UnknownFunction, tr)
    case Some(i) =>
      match reg[i].builtin
      case Some(k) =>
        var ev := Event(k, args);
        (match w.m.host(tr, ev)
         case None => Aborts(BuiltinFailed, tr + [ev])
         case Some(v) => Gives(v, st, tr + [ev]))
      case None =>
        if i >= |defs| || !defs[i].Source? || !defs[i].decl.FuncDecl? then Aborts(UnknownFunction, tr)
        else
          var d := defs[i];
          var syms := FnEnv(d.decl.params, d.decl.body, d.reg).syms;
          if |syms| < |args| then Aborts(BadCallee, tr)
          else match DoAll(w, Fx(d.decl.name, d.reg), d.decl.body, ParamSyms(d.decl.params), Bind(syms, args), tr, fuel)
            case Done(_, tr1) => Gives(0, st, tr1)
            case Yields(v, tr1) => Gives(v, st, tr1)
            case Dies(err, tr1) => Aborts(err, tr1)
            case Runs => Unfinished
  }

  function Forget(r: Answer): Effect {
    match r
    case Gives(_, st, tr) => Done(st, tr)
    case Aborts(e, tr) => Dies(e, tr)
    case Unfinished => Runs
  }

  function DoDecl(w: World, fx: Fx, x: string, init: Option<Expr>, st: Store, tr: Trace, fuel: nat): (r: Effect)
    ensures !r.Yields?
    decreases fuel, init, 0
  {
    if init.Some? then Forget(SetTo(x, Eval(w, fx, init.value, st, tr, fuel))) else Done(st, tr)
  }

  function DoStart(w: World, fx: Fx, s: ForInit, st: Store, tr: Trace, fuel: nat): (r: Effect)
    ensures !r.Yields?
    decreases fuel, s, 0
  {
    match s
    case NoInit => Done(st, tr)
    case DeclInit(x, _, init) => DoDecl(w, fx, x, init, st, tr, fuel)
    case ExprInit(e) => Forget(Eval(w, fx, e, st, tr, fuel))
  }

  function Do(w: World, fx: Fx, s: Stmt, scope: seq<Sym>, st: Store, tr: Trace, fuel: nat): Effect
    decreases fuel, s, 3
  {
    match s
    case ExprStmt(e) =>
      if Effective(e, scope, fx.reg) == e then Forget(Eval(w, fx, e, st, tr, fuel))
      else if fuel == 0 || !e.Var? then Runs
      else Forget(Apply(w, e.name, Pads(fx.reg, e.name, 0), st, tr, fuel - 1))
    case VarDecl(x, _, init) => DoDecl(w, fx, x, init, st, tr, fuel)
    case Block(ss) => DoAll(w, fx, ss, scope, st, tr, fuel)
    case If(c, t, els) =>
      (match Eval(w, fx, c, st, tr, fuel)
       case Gives(v, st1, tr1) =>
         if v != 0 then Do(w, fx, t, scope, st1, tr1, fuel)
         else (match els
               case None => Done(st1, tr1)
               case Some(f) => Do(w, fx, f, SymsAfter(t, scope), st1, tr1, fuel))
       case r => Forget(r))
    case While(c, b) =>
      (match Eval(w, fx, c, st, tr, fuel)
       case Gives(v, st1, tr1) =>
         if v == 0 then Done(st1, tr1)
         else if fuel == 0 then Runs
         else (match Do(w, fx, b, scope, st1, tr1, fuel)
               case Done(st2, tr2) => Do(w, fx, s, scope, st2, tr2, fuel - 1)
               case r => r)
       case r => Forget(r))
    case For(start, _, _, _) =>
      (match DoStart(w, fx, start, st, tr, fuel)
       case Done(st1, tr1) => DoLoop(w, fx, s, StartSyms(start, scope), st1, tr1, fuel)
       case r => r)
    case Return(v) =>
      if v.None? then Yields(0, tr)
      else (match Eval(w, fx, v.value, st, tr, fuel)
            case Gives(x, _, tr1) => Yields(x, tr1)
            case r => Forget(r))
    case FuncDecl(_, _, _, _) => Done(st, tr)
  }

  /** A `for` from its test on; no test counts as true. */
  function DoLoop(w: World, fx: Fx, s: Stmt, sc: seq<Sym>, st: Store, tr: Trace, fuel: nat): Effect
    requires s.For?
    decreases fuel, s, 2
  {
    var r := if s.test.Some? then Eval(w, fx, s.test.value, st, tr, fuel) else Gives(1, st, tr);
    if !r.Gives? then Forget(r)
    else if r.v == 0 then Done(r.st, r.tr)
    else if fuel == 0 then Runs
    else match Do(w, fx, s.loop, sc, r.st, r.tr, fuel)
      case Done(st1, tr1) =>
        (match (if s.post.None? then Done(st1, tr1) else Forget(Eval(w, fx, s.post.value, st1, tr1, fuel)))
         case Done(st2, tr2) => DoLoop(w, fx, s, sc, st2, tr2, fuel - 1)
         case e => e)
      case e => e
  }

  function DoAll(w: World, fx: Fx, ss: seq<Stmt>, scope: seq<Sym>, st: Store, tr: Trace, fuel: nat): Effect
    decreases fuel, ss, 0
  {
    if |ss| == 0 then Done(st, tr)
    else match Do(w, fx, ss[0], scope, st, tr, fuel)
      case Done(st1, tr1) => DoAll(w, fx, ss[1..], SymsAfter(ss[0], scope), st1, tr1, fuel)
      case r => r
  }

  // ---- the part of the language that compiles to its meaning ----

  predicate LeakFree(e: Expr)
    decreases e, 1
  {
    match e
    case Call(_, args) => AllLeakFree(args)
    case Bin(_, a, b) => LeakFree(a) && LeakFree(b)
    case AndAnd(_, _) => false
    case OrOr(_, _) => false
    case Un(_, a) => LeakFree(a)
    case PreInc(_, _) => false
    case Assign(_, _, a) => LeakFree(a)
    case _ => true
  }

  predicate AllLeakFree(es: seq<Expr>)
    decreases es, 0
  {
    |es| == 0 || (LeakFree(es[0]) && AllLeakFree(es[1..]))
  }

  predicate OptLeakFree(e: Option<Expr>) {
    e.Some? ==> LeakFree(e.value)
  }

  predicate StmtLeakFree(s: Stmt)
    decreases s, 1
  {
    match s
    case ExprStmt(e) => LeakFree(e)
    case VarDecl(_, _, init) => OptLeakFree(init)
    case Block(ss) => StmtsLeakFree(ss)
    case If(c, t, els) => LeakFree(c) && StmtLeakFree(t)
      && (match els case None => true case Some(f) => StmtLeakFree(f))
    case While(c, b) => LeakFree(c) && StmtLeakFree(b)
    case For(start, test, post, b) =>
      && (match start case NoInit => true case DeclInit(_, _, init) => OptLeakFree(init) case ExprInit(e) =>
         LeakFree(e))
      && OptLeakFree(test) && OptLeakFree(post) && StmtLeakFree(b)
    case Return(v) => OptLeakFree(v)
    case FuncDecl(_, _, _, _) => true
  }

  predicate StmtsLeakFree(ss: seq<Stmt>)
    decreases ss, 0
  {
    |ss| == 0 || (StmtLeakFree(ss[0]) && StmtsLeakFree(ss[1..]))
  }

  predicate DefsLeakFree(defs: seq<FnDef>) {
    forall i :: 0 <= i < |defs| && defs[i].Source? && defs[i].decl.FuncDecl? ==> StmtsLeakFree(defs[i].decl.body)
  }

  /** Every function of the session is in that part, whatever builtins define. */
  ghost predicate WorldLeakFree(w: World) {
    forall tr: Trace :: DefsLeakFree(Now(w, tr).defs)
  }
}
