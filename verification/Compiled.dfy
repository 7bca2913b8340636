/** What compiled NOC does, construct by construct: an expression is the
    non-empty sequence of values it leaves on the stack, a statement may leave
    some behind too. For most of the language that is one value and none
    (`Meaning` relates this to the documented language); `&&`, `||` and prefix
    `++`/`--` leave two. Loops and calls burn fuel, so that running forever is
    `Timeout` at every fuel. */
module Compiled {
  import opened Wrappers
  import opened Word
  import opened Ast
  import opened Bytecode
  import opened CodeGen
  import opened Linking
  import opened Vm
  import opened Config

  type Store = map<string, u64>

  /** Variables are zero until assigned. */
  function Get(st: Store, x: string): u64 {
    if x in st then st[x] else 0
  }

  /** The source of a registered function, with the registry its calls and
      default arguments were resolved against; builtins have none. */
  datatype FnDef = NoSource | Source(decl: Stmt, reg: seq<Fn>)

  datatype World = World(m: Machine, defs: seq<FnDef>)

  /** The sources behind the registry after a line's definitions. */
  function DefsAfter(s: Stmt, reg: seq<Fn>, defs: seq<FnDef>): seq<FnDef> {
    if !s.FuncDecl? || Register(reg, FnOf(s, reg)).None? then defs
    else
      var i := ExactIndex(reg, s.name, 0);
      if i < |defs| then defs[i := Source(s, reg)] else defs + [Source(s, reg)]
  }

  function WorldAfter(s: Stmt, w: World): World {
    World(w.m.(reg := RegAfter(s, w.m.reg)), DefsAfter(s, w.m.reg, w.defs))
  }

  function WorldAfterAll(stmts: seq<Stmt>, w: World): World {
    if |stmts| == 0 then w else WorldAfterAll(stmts[1..], WorldAfter(stmts[0], w))
  }

  /** The world at this point of a run: builtin calls may have defined functions. */
  function Now(w: World, tr: Trace): World {
    if |tr| == 0 then w
    else
      var before := tr[..|tr| - 1];
      var w1 := Now(w, before);
      WorldAfterAll(w1.m.news(w1.m.reg, before, tr[|tr| - 1]), w1)
  }

  lemma {:induction false} WorldMachine(stmts: seq<Stmt>, w: World)
    ensures WorldAfterAll(stmts, w).m == w.m.(reg := RegsAfter(stmts, w.m.reg))
    decreases |stmts|
  {
    if |stmts| > 0 { WorldMachine(stmts[1..], WorldAfter(stmts[0], w)); }
  }

  lemma {:induction false} NowIs(w: World, tr: Trace)
    ensures Now(w, tr).m == w.m.(reg := RegNow(w.m, tr))
    decreases |tr|
  {
    if |tr| > 0 {
      var before := tr[..|tr| - 1];
      var w1 := Now(w, before);
      NowIs(w, before);
      WorldMachine(w1.m.news(w1.m.reg, before, tr[|tr| - 1]), w1);
    }
  }

  lemma NowNext(w: World, tr: Trace, ev: Event)
    ensures Now(w, tr + [ev]) == WorldAfterAll(NewsAt(w.m, tr, ev), Now(w, tr))
  {
    NowIs(w, tr);
    assert (tr + [ev])[..|tr|] == tr;
  }

  /** The function a piece of source belongs to. */
  datatype Fx = Fx(name: string, reg: seq<Fn>)

  datatype Res =
    | Ok(ps: seq<u64>, st: Store, tr: Trace)
    | Err(e: Error, tr: Trace)
    | Timeout

  datatype CallRes = Result(v: u64, tr: Trace) | CallErr(e: Error, tr: Trace) | CallTimeout

  datatype StmtRes =
    | Norm(leak: seq<u64>, st: Store, tr: Trace)
    | Returned(v: u64, tr: Trace)
    | StmtErr(e: Error, tr: Trace)
    | StmtTimeout

  function UnOf(op: UnOp, a: u64): u64 {
    match op
    case Neg => Negate(a)
    case Not => Bool64(a == 0)
    case BNot => Complement(a)
  }

  function StepOf(up: bool): u64 {
    if up then 1 else TWO64 - 1
  }

  /** Replace the two top values by the result of `op`. */
  function ArithTop(op: AluOp, qs: seq<u64>, st: Store, tr: Trace): (r: Res)
    requires |qs| >= 2
    ensures !r.Timeout? && (r.Ok? ==> |r.ps| == |qs| - 1)
  {
    match Alu(op, Top(Init(qs)), Top(qs))
    case Value(v) => Ok(Init(Init(qs)) + [v], st, tr)
    case DivZero => Err(DivisionByZero, tr)
    case DivFault => Err(DivideFault, tr)
  }

  /** Assign the top value to `x`, keeping it. */
  function Keep(x: string, r: Res): (r': Res)
    requires r.Ok? ==> |r.ps| >= 1
    ensures r'.Ok? ==> |r'.ps| >= 1
  {
    if r.Ok? then r.(st := r.st[x := Top(r.ps)]) else r
  }

  function Pushes(w: World, fx: Fx, e: Expr, st: Store, tr: Trace, fuel: nat): (r: Res)
    ensures r.Ok? ==> |r.ps| >= 1
    decreases fuel, e, 1
  {
    match e
    case Lit(v) => Ok([v], st, tr)
    case StrLit(t) => Ok([w.m.lit(fx.name, t)], st, tr)
    case Var(x) => Ok([Get(st, x)], st, tr)
    case Call(f, args) =>
      (match PushAll(w, fx, args, st, tr, fuel)
       case Ok(qs, st1, tr1) =>
         var pads := Pads(fx.reg, f, |args|);
         var all := qs + pads;
         var k := |qs| - |args|;
         if fuel == 0 then Timeout
         else (match CallFn(w, f, all[k..], tr1, fuel - 1)
               case Result(v, tr2) => Ok(all[..k] + [v], st1, tr2)
               case CallErr(err, tr2) => Err(err, tr2)
               case CallTimeout => Timeout)
       case r => r)
    case Bin(op, a, b) =>
      (match Pushes(w, fx, a, st, tr, fuel)
       case Ok(pa, st1, tr1) =>
         (match Pushes(w, fx, b, st1, tr1, fuel)
          case Ok(pb, st2, tr2) => ArithTop(op, pa + pb, st2, tr2)
          case r => r)
       case r => r)
    case AndAnd(_, _) => Logic(w, fx, e, st, tr, fuel)
    case OrOr(_, _) => Logic(w, fx, e, st, tr, fuel)
    case Un(op, a) =>
      (match Pushes(w, fx, a, st, tr, fuel)
       case Ok(pa, st1, tr1) => Ok(Init(pa) + [UnOf(op, Top(pa))], st1, tr1)
       case r => r)
    case PreInc(a, up) =>
      var x := if a.Var? then a.name else "";
      var v := Get(st, x);
      var v1 := Wrap(v + StepOf(up));
      Ok([v, v1], st[x := v1], tr)
    case PostInc(x, up) =>
      var v := Get(st, x);
      Ok([v], st[x := Wrap(v + StepOf(up))], tr)
    case Assign(op, x, a) =>
      if op.Set? then Keep(x, Pushes(w, fx, a, st, tr, fuel))
      else
        var v := Get(st, x);
        (match Pushes(w, fx, a, st, tr, fuel)
         case Ok(pa, st1, tr1) => Keep(x, ArithTop(op.op, [v] + pa, st1, tr1))
         case r => r)
  }

  /** `a && b`, `a || b` as compiled: `b` runs only if `a` does not decide, but
      what is left is always 0 and 1 for `&&`, 1 and 0 for `||`. */
  function Logic(w: World, fx: Fx, e: Expr, st: Store, tr: Trace, fuel: nat): (r: Res)
    requires e.AndAnd? || e.OrOr?
    ensures r.Ok? ==> |r.ps| >= 2
    decreases fuel, e, 0
  {
    var both := if e.AndAnd? then [0, 1] else [1, 0];
    match Pushes(w, fx, e.a, st, tr, fuel)
    case Ok(pa, st1, tr1) =>
      if (Top(pa) == 0) == e.AndAnd? then Ok(Init(pa) + both, st1, tr1)
      else (match Pushes(w, fx, e.b, st1, tr1, fuel)
            case Ok(pb, st2, tr2) => Ok(Init(pa) + (Init(pb) + both), st2, tr2)
            case r => r)
    case r => r
  }

  function PushAll(w: World, fx: Fx, es: seq<Expr>, st: Store, tr: Trace, fuel: nat): (r: Res)
    ensures r.Ok? ==> |r.ps| >= |es|
    decreases fuel, es, 0
  {
    if |es| == 0 then Ok([], st, tr)
    else match Pushes(w, fx, es[0], st, tr, fuel)
      case Ok(p, st1, tr1) =>
        (match PushAll(w, fx, es[1..], st1, tr1, fuel)
         case Ok(ps, st2, tr2) => Ok(p + ps, st2, tr2)
         case r => r)
      case r => r
  }

  /** The first variables of the callee's namespace take the arguments; the
      rest, and parameters left over, are zero. */
  function Bind(syms: seq<Sym>, args: seq<u64>): Store {
    if |syms| == 0 then map[]
    else
      var k := |syms| - 1;
      Bind(syms[..k], args)[syms[k].name := if k < |args| then args[k] else 0]
  }

  function CallFn(w: World, f: string, args: seq<u64>, tr: Trace, fuel: nat): CallRes
    decreases fuel
  {
    var reg, defs := Now(w, tr).m.reg, Now(w, tr).defs;
    match Lookup(reg, f)
    case None => CallErr(UnknownFunction, tr)
    case Some(i) =>
      match reg[i].builtin
      case Some(k) =>
        var ev := Event(k, args);
        (match w.m.host(tr, ev)
         case None => CallErr(BuiltinFailed, tr + [ev])
         case Some(v) => Result(v, tr + [ev]))
      case None =>
        if i >= |defs| || !defs[i].Source? || !defs[i].decl.FuncDecl? then CallErr(UnknownFunction, tr)
        else
          var d := defs[i];
          var syms := FnEnv(d.decl.params, d.decl.body, d.reg).syms;
          if |syms| < |args| then CallErr(BadCallee, tr)
          else match ExecAll(w, Fx(d.decl.name, d.reg), d.decl.body, ParamSyms(d.decl.params), Bind(syms, args), tr,
            fuel)
            case Norm(_, _, tr1) => Result(0, tr1)
            case Returned(v, tr1) => Result(v, tr1)
            case StmtErr(err, tr1) => CallErr(err, tr1)
            case StmtTimeout => CallTimeout
  }

  /** Values already left on the stack come before those of what follows. */
  function After(leak: seq<u64>, r: StmtRes): StmtRes {
    if r.Norm? then r.(leak := leak + r.leak) else r
  }

  function Abrupt(r: Res): StmtRes
    requires !r.Ok?
  {
    if r.Err? then StmtErr(r.e, r.tr) else StmtTimeout
  }

  /** An expression for its effect: the top value goes. */
  function Dropped(r: Res): StmtRes
    requires r.Ok? ==> |r.ps| >= 1
  {
    if r.Ok? then Norm(Init(r.ps), r.st, r.tr) else Abrupt(r)
  }

  function Declare(x: string, r: Res): StmtRes
    requires r.Ok? ==> |r.ps| >= 1
  {
    if r.Ok? then Norm(Init(r.ps), r.st[x := Top(r.ps)], r.tr) else Abrupt(r)
  }

  function ExecDecl(w: World, fx: Fx, x: string, init: Option<Expr>, st: Store, tr: Trace, fuel: nat): StmtRes
    decreases fuel, init, 0
  {
    if init.Some? then Declare(x, Pushes(w, fx, init.value, st, tr, fuel)) else Norm([], st, tr)
  }

  function ExecStart(w: World, fx: Fx, s: ForInit, st: Store, tr: Trace, fuel: nat): StmtRes
    decreases fuel, s, 0
  {
    match s
    case NoInit => Norm([], st, tr)
    case DeclInit(x, _, init) => ExecDecl(w, fx, x, init, st, tr, fuel)
    case ExprInit(e) => Dropped(Pushes(w, fx, e, st, tr, fuel))
  }

  function ExecStmt(w: World, fx: Fx, s: Stmt, scope: seq<Sym>, st: Store, tr: Trace, fuel: nat): StmtRes
    decreases fuel, s, 3
  {
    match s
    case ExprStmt(e) =>
      if Effective(e, scope, fx.reg) == e then Dropped(Pushes(w, fx, e, st, tr, fuel))
      else Dropped(PushBare(w, fx, e, st, tr, fuel))
    case VarDecl(x, _, init) => ExecDecl(w, fx, x, init, st, tr, fuel)
    case Block(ss) => ExecAll(w, fx, ss, scope, st, tr, fuel)
    case If(c, t, els) =>
      (match Pushes(w, fx, c, st, tr, fuel)
       case Ok(p, st1, tr1) =>
         After(Init(p),
               if Top(p) != 0 then ExecStmt(w, fx, t, scope, st1, tr1, fuel)
               else (match els
                     case None => Norm([], st1, tr1)
                     case Some(f) => ExecStmt(w, fx, f, SymsAfter(t, scope), st1, tr1, fuel)))
       case r => Abrupt(r))
    case While(c, b) =>
      (match Pushes(w, fx, c, st, tr, fuel)
       case Ok(p, st1, tr1) =>
         if Top(p) == 0 then Norm(Init(p), st1, tr1)
         else if fuel == 0 then StmtTimeout
         else After(Init(p),
                (match ExecStmt(w, fx, b, scope, st1, tr1, fuel)
                 case Norm(l, st2, tr2) => After(l, ExecStmt(w, fx, s, scope, st2, tr2, fuel - 1))
                 case r => r))
       case r => Abrupt(r))
    case For(start, _, _, _) =>
      (match ExecStart(w, fx, start, st, tr, fuel)
       case Norm(l, st1, tr1) => After(l, ExecLoop(w, fx, s, StartSyms(start, scope), st1, tr1, fuel))
       case r => r)
    case Return(v) =>
      if v.None? then Returned(0, tr)
      else (match Pushes(w, fx, v.value, st, tr, fuel)
            case Ok(p, _, tr1) => Returned(Top(p), tr1)
            case r => Abrupt(r))
    case FuncDecl(_, _, _, _) => Norm([], st, tr)
  }

  /** A function's name alone: a call with default arguments. */
  function PushBare(w: World, fx: Fx, e: Expr, st: Store, tr: Trace, fuel: nat): (r: Res)
    ensures r.Ok? ==> |r.ps| >= 1
    decreases fuel, e, 2
  {
    var f := if e.Var? then e.name else "";
    if fuel == 0 then Timeout
    else match CallFn(w, f, Pads(fx.reg, f, 0), tr, fuel - 1)
      case Result(v, tr1) => Ok([v], st, tr1)
      case CallErr(err, tr1) => Err(err, tr1)
      case CallTimeout => Timeout
  }

  /** A `for` from its test on. */
  function ExecLoop(w: World, fx: Fx, s: Stmt, sc: seq<Sym>, st: Store, tr: Trace, fuel: nat): StmtRes
    requires s.For?
    decreases fuel, s, 2
  {
    var r := if s.test.Some? then Pushes(w, fx, s.test.value, st, tr, fuel) else Ok([1], st, tr);
    if !r.Ok? then Abrupt(r)
    else if Top(r.ps) == 0 then Norm(Init(r.ps), r.st, r.tr)
    else if fuel == 0 then StmtTimeout
    else After(Init(r.ps),
           (match ExecStmt(w, fx, s.loop, sc, r.st, r.tr, fuel)
            case Norm(l, st1, tr1) => After(l, ExecPost(w, fx, s, sc, st1, tr1, fuel))
            case r => r))
  }

  /** The post expression, and round again. */
  function ExecPost(w: World, fx: Fx, s: Stmt, sc: seq<Sym>, st: Store, tr: Trace, fuel: nat): StmtRes
    requires s.For? && fuel > 0
    decreases fuel, s, 1
  {
    if s.post.None? then ExecLoop(w, fx, s, sc, st, tr, fuel - 1)
    else match Dropped(Pushes(w, fx, s.post.value, st, tr, fuel))
      case Norm(l, st1, tr1) => After(l, ExecLoop(w, fx, s, sc, st1, tr1, fuel - 1))
      case r => r
  }

  function ExecAll(w: World, fx: Fx, ss: seq<Stmt>, scope: seq<Sym>, st: Store, tr: Trace, fuel: nat): StmtRes
    decreases fuel, ss, 0
  {
    if |ss| == 0 then Norm([], st, tr)
    else match ExecStmt(w, fx, ss[0], scope, st, tr, fuel)
      case Norm(l, st1, tr1) => After(l, ExecAll(w, fx, ss[1..], SymsAfter(ss[0], scope), st1, tr1, fuel))
      case r => r
  }
}
