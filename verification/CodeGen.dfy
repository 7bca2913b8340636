/** What code a NOC program compiles to, said without the one-pass compiler:
    bytes as a function of the tree, the final symbol and string tables and the
    address, with every jump target already absolute. `Compiler` reaches the
    same bytes by emitting and back-patching. */
module CodeGen {
  import opened Wrappers
  import opened Word
  import opened Ast
  import opened Bytecode

  const MAX_LOCALS: nat := 64
  const MAX_STRINGS: nat := 64

  // ---- symbol and string tables ----

  /** Slot of a variable: the last symbol of that name, or -1. */
  function Slot(syms: seq<Sym>, x: string): (k: int)
    ensures -1 <= k < |syms|
    ensures k >= 0 ==> syms[k].name == x
  {
    if |syms| == 0 then -1
    else if syms[|syms| - 1].name == x then |syms| - 1
    else Slot(syms[..|syms| - 1], x)
  }

  function SlotOperand(syms: seq<Sym>, x: string): u32 {
    if Slot(syms, x) >= 0 then ToU32(Slot(syms, x)) else 0
  }

  /** `b` extends `a` with names that were new when they were added. */
  ghost predicate SymsLe(a: seq<Sym>, b: seq<Sym>) {
    a <= b && forall j {:trigger b[..j]} :: |a| <= j < |b| ==> Slot(b[..j], b[j].name) < 0
  }

  lemma {:induction false} SlotStable(a: seq<Sym>, b: seq<Sym>, x: string)
    requires SymsLe(a, b) && Slot(a, x) >= 0
    ensures Slot(b, x) == Slot(a, x)
    decreases |b|
  {
    if |a| == |b| {
      assert a == b;
    } else {
      var j := |b| - 1;
      var b' := b[..j];
      assert a <= b';
      forall i | |a| <= i < |b'| ensures Slot(b'[..i], b'[i].name) < 0 {
        assert b'[..i] == b[..i];
      }
      SlotStable(a, b', x);
    }
  }

  lemma SymsLeTrans(a: seq<Sym>, b: seq<Sym>, c: seq<Sym>)
    requires SymsLe(a, b) && SymsLe(b, c)
    ensures SymsLe(a, c)
  {
    forall j | |a| <= j < |c| ensures Slot(c[..j], c[j].name) < 0 {
      if j < |b| {
        assert c[..j] == b[..j];
      }
    }
  }

  lemma SymsLeAdd(a: seq<Sym>, s: Sym)
    requires Slot(a, s.name) < 0
    ensures SymsLe(a, a + [s])
  {
    assert (a + [s])[..|a|] == a;
  }

  function AddStr(ss: seq<string>, s: string): seq<string> {
    if s in ss then ss else ss + [s]
  }

  /** Index of the first occurrence; |ss| when there is none. */
  function IndexOf(ss: seq<string>, s: string): (k: nat)
    ensures k <= |ss|
    ensures s in ss ==> k < |ss| && ss[k] == s
  {
    if |ss| == 0 then 0
    else if ss[0] == s then 0
    else 1 + IndexOf(ss[1..], s)
  }

  lemma {:induction false} IndexStable(a: seq<string>, b: seq<string>, s: string)
    requires a <= b && s in a
    ensures IndexOf(b, s) == IndexOf(a, s)
    decreases |a|
  {
    if a[0] != s {
      IndexStable(a[1..], b[1..], s);
    }
  }

  // ---- calls ----

  function DefaultOf(f: Fn, k: nat): Option<u64> {
    if k < |f.defaults| then f.defaults[k] else None
  }

  /** May `f` be called with `n` arguments? */
  predicate ArityOk(f: Fn, n: nat) {
    if f.variadic then n >= f.nargs
    else n <= f.nargs && forall k :: n <= k < f.nargs ==> DefaultOf(f, k).Some?
  }

  function PadFrom(f: Fn, k: nat): seq<u64>
    decreases f.nargs - k
  {
    if k >= f.nargs then []
    else [if DefaultOf(f, k).Some? then DefaultOf(f, k).value else 0] + PadFrom(f, k + 1)
  }

  /** Default values the compiler pushes behind `n` explicit arguments. */
  function Pads(reg: seq<Fn>, callee: string, n: nat): seq<u64> {
    match Lookup(reg, callee)
    case None => []
    case Some(i) => if reg[i].variadic then [] else PadFrom(reg[i], n)
  }

  function PadCode(vals: seq<u64>): seq<byte> {
    if |vals| == 0 then [] else Enc(Push(vals[0])) + PadCode(vals[1..])
  }

  /** A bare identifier that names a function, and no variable, is a call. */
  function Effective(e: Expr, scope: seq<Sym>, reg: seq<Fn>): Expr {
    if e.Var? && Slot(scope, e.name) < 0 && Lookup(reg, e.name).Some? then Call(e.name, []) else e
  }

  function ExprType(e: Expr, scope: seq<Sym>, reg: seq<Fn>): nat {
    match e
    case StrLit(_) => STR
    case Var(x) => if Slot(scope, x) >= 0 then scope[Slot(scope, x)].ty else I64
    case Call(f, _) => if Lookup(reg, f).Some? then reg[Lookup(reg, f).value].ret else I64
    case _ => I64
  }

  // ---- which trees the compiler accepts ----

  predicate ExprOk(e: Expr, scope: seq<Sym>, reg: seq<Fn>)
    decreases e, 1
  {
    match e
    case Lit(_) => true
    case StrLit(_) => true
    case Var(x) => Slot(scope, x) >= 0
    case Call(f, args) =>
      && Lookup(reg, f).Some?
      && ArityOk(reg[Lookup(reg, f).value], |args|)
      && ArgsOk(args, scope, reg)
    case Bin(_, a, b) => ExprOk(a, scope, reg) && ExprOk(b, scope, reg)
    case AndAnd(a, b) => ExprOk(a, scope, reg) && ExprOk(b, scope, reg)
    case OrOr(a, b) => ExprOk(a, scope, reg) && ExprOk(b, scope, reg)
    case Un(_, a) => ExprOk(a, scope, reg)
    case PreInc(a, _) => a.Var? && Slot(scope, a.name) >= 0
    case PostInc(x, _) => Slot(scope, x) >= 0
    case Assign(op, x, a) => Slot(scope, x) >= 0 && (op.Compound? ==> CompoundOk(op.op)) && ExprOk(a, scope, reg)
  }

  predicate ArgsOk(es: seq<Expr>, scope: seq<Sym>, reg: seq<Fn>)
    decreases es, 0
  {
    |es| == 0 || (ExprOk(es[0], scope, reg) && ArgsOk(es[1..], scope, reg))
  }

  predicate OptOk(e: Option<Expr>, scope: seq<Sym>, reg: seq<Fn>) {
    e.Some? ==> ExprOk(e.value, scope, reg)
  }

  predicate DeclOk(x: string, scope: seq<Sym>) {
    Slot(scope, x) < 0 && |scope| < MAX_LOCALS
  }

  predicate StartOk(st: ForInit, scope: seq<Sym>, reg: seq<Fn>) {
    match st
    case NoInit => true
    case DeclInit(x, ty, init) => DeclOk(x, scope) && OptOk(init, scope + [Sym(x, ty)], reg)
    case ExprInit(e) => ExprOk(e, scope, reg)
  }

  predicate StmtOk(s: Stmt, scope: seq<Sym>, reg: seq<Fn>, inFn: bool)
    decreases s, 1
  {
    match s
    case ExprStmt(e) => ExprOk(Effective(e, scope, reg), scope, reg)
    case VarDecl(x, ty, init) => DeclOk(x, scope) && OptOk(init, scope + [Sym(x, ty)], reg)
    case Block(ss) => StmtsOk(ss, scope, reg, inFn)
    case If(c, t, els) =>
      && ExprOk(c, scope, reg)
      && StmtOk(t, scope, reg, inFn)
      && (match els case None => true case Some(f) => StmtOk(f, SymsAfter(t, scope), reg, inFn))
    case While(c, b) => ExprOk(c, scope, reg) && StmtOk(b, scope, reg, inFn)
    case For(st, test, post, b) =>
      var sc := StartSyms(st, scope);
      && StartOk(st, scope, reg)
      && OptOk(test, sc, reg)
      && StmtOk(b, sc, reg, inFn)
      && OptOk(post, SymsAfter(b, sc), reg)
    case Return(v) => inFn && OptOk(v, scope, reg)
    case FuncDecl(_, _, _, _) => false
  }

  predicate StmtsOk(ss: seq<Stmt>, scope: seq<Sym>, reg: seq<Fn>, inFn: bool)
    decreases ss, 0
  {
    |ss| == 0 || (StmtOk(ss[0], scope, reg, inFn) && StmtsOk(ss[1..], SymsAfter(ss[0], scope), reg, inFn))
  }

  // ---- tables after compiling a tree ----

  function StartSyms(st: ForInit, scope: seq<Sym>): seq<Sym> {
    if st.DeclInit? then scope + [Sym(st.name, st.ty)] else scope
  }

  function SymsAfter(s: Stmt, scope: seq<Sym>): seq<Sym>
    decreases s, 1
  {
    match s
    case VarDecl(x, ty, _) => scope + [Sym(x, ty)]
    case Block(ss) => SymsAfterAll(ss, scope)
    case If(_, t, els) =>
      (match els case None => SymsAfter(t, scope) case Some(f) => SymsAfter(f, SymsAfter(t, scope)))
    case While(_, b) => SymsAfter(b, scope)
    case For(st, _, _, b) => SymsAfter(b, StartSyms(st, scope))
    case _ => scope
  }

  function SymsAfterAll(ss: seq<Stmt>, scope: seq<Sym>): seq<Sym>
    decreases ss, 0
  {
    if |ss| == 0 then scope else SymsAfterAll(ss[1..], SymsAfter(ss[0], scope))
  }

  function ExprStrs(e: Expr, ss: seq<string>): seq<string>
    decreases e, 1
  {
    match e
    case StrLit(t) => AddStr(ss, t)
    case Call(f, args) => AddStr(ArgsStrs(args, ss), f)
    case Bin(_, a, b) => ExprStrs(b, ExprStrs(a, ss))
    case AndAnd(a, b) => ExprStrs(b, ExprStrs(a, ss))
    case OrOr(a, b) => ExprStrs(b, ExprStrs(a, ss))
    case Un(_, a) => ExprStrs(a, ss)
    case Assign(_, _, a) => ExprStrs(a, ss)
    case _ => ss
  }

  function ArgsStrs(es: seq<Expr>, ss: seq<string>): seq<string>
    decreases es, 0
  {
    if |es| == 0 then ss else ArgsStrs(es[1..], ExprStrs(es[0], ss))
  }

  function OptStrs(e: Option<Expr>, ss: seq<string>): seq<string> {
    if e.Some? then ExprStrs(e.value, ss) else ss
  }

  function StartStrs(st: ForInit, ss: seq<string>): seq<string> {
    match st
    case NoInit => ss
    case DeclInit(_, _, init) => OptStrs(init, ss)
    case ExprInit(e) => ExprStrs(e, ss)
  }

  function StmtStrs(s: Stmt, scope: seq<Sym>, reg: seq<Fn>, ss: seq<string>): seq<string>
    decreases s, 1
  {
    match s
    case ExprStmt(e) => ExprStrs(Effective(e, scope, reg), ss)
    case VarDecl(_, _, init) => OptStrs(init, ss)
    case Block(b) => StmtsStrs(b, scope, reg, ss)
    case If(c, t, els) =>
      var s1 := StmtStrs(t, scope, reg, ExprStrs(c, ss));
      (match els case None => s1 case Some(f) => StmtStrs(f, SymsAfter(t, scope), reg, s1))
    case While(c, b) => StmtStrs(b, scope, reg, ExprStrs(c, ss))
    case For(st, test, post, b) =>
      OptStrs(post, StmtStrs(b, StartSyms(st, scope), reg, OptStrs(test, StartStrs(st, ss))))
    case Return(v) => OptStrs(v, ss)
    case FuncDecl(_, _, _, _) => ss
  }

  function StmtsStrs(b: seq<Stmt>, scope: seq<Sym>, reg: seq<Fn>, ss: seq<string>): seq<string>
    decreases b, 0
  {
    if |b| == 0 then ss
    else StmtsStrs(b[1..], SymsAfter(b[0], scope), reg, StmtStrs(b[0], scope, reg, ss))
  }

  // ---- code ----

  /** The final tables of the function a piece of code belongs to, and the
      registry its calls were compiled against. */
  datatype Env = Env(syms: seq<Sym>, strs: seq<string>, reg: seq<Fn>)

  function ArithOf(op: AluOp): seq<byte> {
    Enc(Arith(op))
  }

  function LoadCode(x: string, env: Env): seq<byte> {
    Enc(Load(SlotOperand(env.syms, x)))
  }

  function StoreCode(x: string, env: Env): seq<byte> {
    Enc(Store(SlotOperand(env.syms, x)))
  }

  function UnCode(op: UnOp): seq<byte> {
    match op
    case Neg => Enc(NegI)
    case Not => Enc(NotI)
    case BNot => Enc(BNotI)
  }

  function IncCode(up: bool): seq<byte> {
    Enc(Push(if up then 1 else TWO64 - 1))
  }

  /** `a && b` and `a || b`: with `skip` the opcode that leaves early. Both
      `Push`es lie on every path: the jump over the second one lands on it. */
  function LogicCode(ca: seq<byte>, cb: seq<byte>, isAnd: bool, pc: nat): seq<byte> {
    var short := pc + |ca| + 5 + |cb| + 5;
    var jump := if isAnd then Enc(JmpF(ToU32(short))) else Enc(JmpT(ToU32(short)));
    ca + (jump + (cb + (jump +
      (Enc(Push(if isAnd then 0 else 1)) + (Enc(Jmp(ToU32(short + 14))) + Enc(Push(if isAnd then 1 else 0)))))))
  }

  function ExprCode(e: Expr, env: Env, pc: nat): seq<byte>
    decreases e, 1
  {
    match e
    case Lit(v) => Enc(Push(v))
    case StrLit(t) => Enc(PushStr(ToU32(IndexOf(env.strs, t))))
    case Var(x) => LoadCode(x, env)
    case Call(f, args) =>
      var pads := Pads(env.reg, f, |args|);
      ArgsCode(args, env, pc) +
      (PadCode(pads) + Enc(CallI(ToU32(IndexOf(env.strs, f)), ToU32(|args| + |pads|))))
    case Bin(op, a, b) =>
      var ca := ExprCode(a, env, pc);
      ca + (ExprCode(b, env, pc + |ca|) + ArithOf(op))
    case AndAnd(a, b) =>
      var ca := ExprCode(a, env, pc);
      LogicCode(ca, ExprCode(b, env, pc + |ca| + 5), true, pc)
    case OrOr(a, b) =>
      var ca := ExprCode(a, env, pc);
      LogicCode(ca, ExprCode(b, env, pc + |ca| + 5), false, pc)
    case Un(op, a) => ExprCode(a, env, pc) + UnCode(op)
    case PreInc(a, up) =>
      var x := if a.Var? then a.name else "";
      LoadCode(x, env) + (LoadCode(x, env) + (IncCode(up) + (ArithOf(Add) + (Enc(Dup) + StoreCode(x, env)))))
    case PostInc(x, up) =>
      LoadCode(x, env) + (Enc(Dup) + (IncCode(up) + (ArithOf(Add) + StoreCode(x, env))))
    case Assign(op, x, a) =>
      if op.Set? then
        ExprCode(a, env, pc) + (Enc(Dup) + StoreCode(x, env))
      else
        LoadCode(x, env) + (ExprCode(a, env, pc + 5) + (ArithOf(op.op) + (Enc(Dup) + StoreCode(x, env))))
  }

  function ArgsCode(es: seq<Expr>, env: Env, pc: nat): seq<byte>
    decreases es, 0
  {
    if |es| == 0 then []
    else
      var c := ExprCode(es[0], env, pc);
      c + ArgsCode(es[1..], env, pc + |c|)
  }

  function DeclCode(x: string, init: Option<Expr>, env: Env, pc: nat): seq<byte> {
    if init.Some? then ExprCode(init.value, env, pc) + StoreCode(x, env) else []
  }

  function StartCode(st: ForInit, env: Env, pc: nat): seq<byte> {
    match st
    case NoInit => []
    case DeclInit(x, _, init) => DeclCode(x, init, env, pc)
    case ExprInit(e) => ExprCode(e, env, pc) + Enc(Pop)
  }

  function TestCode(test: Option<Expr>, env: Env, pc: nat): seq<byte> {
    if test.Some? then ExprCode(test.value, env, pc) else []
  }

  function PostCode(post: Option<Expr>, env: Env, pc: nat): seq<byte> {
    if post.Some? then ExprCode(post.value, env, pc) + Enc(Pop) else []
  }

  /** `if` without `else`: condition, exit jump, branch. */
  function IfLayout(cc: seq<byte>, ct: seq<byte>, pc: nat): seq<byte> {
    cc + (Enc(JmpF(ToU32(pc + |cc| + 5 + |ct|))) + ct)
  }

  function IfElseLayout(cc: seq<byte>, ct: seq<byte>, cf: seq<byte>, pc: nat): seq<byte> {
    var orElse := pc + |cc| + 5 + |ct| + 5;
    cc + (Enc(JmpF(ToU32(orElse))) + (ct + (Enc(Jmp(ToU32(orElse + |cf|))) + cf)))
  }

  function WhileLayout(cc: seq<byte>, cb: seq<byte>, pc: nat): seq<byte> {
    cc + (Enc(JmpF(ToU32(pc + |cc| + 5 + |cb| + 5))) + (cb + Enc(Jmp(ToU32(pc)))))
  }

  /** A `for` from its test on; without a test there is no exit. */
  function ForLayout(ct: seq<byte>, hasTest: bool, cb: seq<byte>, cp: seq<byte>, top: nat): seq<byte> {
    var end := top + |ct| + (if hasTest then 5 else 0) + |cb| + |cp| + 5;
    ct + ((if hasTest then Enc(JmpF(ToU32(end))) else []) + (cb + (cp + Enc(Jmp(ToU32(top))))))
  }

  function StmtCode(s: Stmt, scope: seq<Sym>, env: Env, pc: nat): seq<byte>
    decreases s, 1
  {
    match s
    case ExprStmt(e) => ExprCode(Effective(e, scope, env.reg), env, pc) + Enc(Pop)
    case VarDecl(x, _, init) => DeclCode(x, init, env, pc)
    case Block(ss) => StmtsCode(ss, scope, env, pc)
    case If(c, t, els) =>
      var cc := ExprCode(c, env, pc);
      var p1 := pc + |cc| + 5;
      var ct := StmtCode(t, scope, env, p1);
      (match els
       case None => IfLayout(cc, ct, pc)
       case Some(f) => IfElseLayout(cc, ct, StmtCode(f, SymsAfter(t, scope), env, p1 + |ct| + 5), pc))
    case While(c, b) =>
      var cc := ExprCode(c, env, pc);
      WhileLayout(cc, StmtCode(b, scope, env, pc + |cc| + 5), pc)
    case For(st, test, post, b) =>
      var ci := StartCode(st, env, pc);
      var top := pc + |ci|;
      var ct := TestCode(test, env, top);
      var p1 := top + |ct| + (if test.Some? then 5 else 0);
      var cb := StmtCode(b, StartSyms(st, scope), env, p1);
      ci + ForLayout(ct, test.Some?, cb, PostCode(post, env, p1 + |cb|), top)
    case Return(v) =>
      (if v.Some? then ExprCode(v.value, env, pc) else Enc(Push(0))) + Enc(Ret)
    case FuncDecl(_, _, _, _) => []
  }

  function StmtsCode(ss: seq<Stmt>, scope: seq<Sym>, env: Env, pc: nat): seq<byte>
    decreases ss, 0
  {
    if |ss| == 0 then []
    else
      var c := StmtCode(ss[0], scope, env, pc);
      c + StmtsCode(ss[1..], SymsAfter(ss[0], scope), env, pc + |c|)
  }

  /** Would this statement, last on a REPL line, leave its value for printing? */
  predicate HasValue(s: Stmt, scope: seq<Sym>, reg: seq<Fn>) {
    s.ExprStmt? && ExprType(Effective(s.e, scope, reg), scope, reg) != VOID
  }

  /** A statement; with `keep`, an expression statement that leaves its value. */
  function TopCode(s: Stmt, keep: bool, scope: seq<Sym>, env: Env, pc: nat): seq<byte> {
    if keep && s.ExprStmt? then ExprCode(Effective(s.e, scope, env.reg), env, pc)
    else StmtCode(s, scope, env, pc)
  }

  function ParamSyms(ps: seq<Param>): seq<Sym> {
    seq(|ps|, i requires 0 <= i < |ps| => Sym(ps[i].name, ps[i].ty))
  }

  /** Body, then the implicit `return 0`. */
  function FnCode(ps: seq<Param>, body: seq<Stmt>, env: Env): seq<byte> {
    StmtsCode(body, ParamSyms(ps), env, 0) + (Enc(Push(0)) + Enc(Ret))
  }

  // ---- the tables during compilation against the final tables ----

  ghost predicate EnvLe(a: Env, b: Env) {
    a.reg == b.reg && a.strs <= b.strs && SymsLe(a.syms, b.syms)
  }

  predicate HasStrs(e: Expr, ss: seq<string>)
    decreases e, 1
  {
    match e
    case StrLit(t) => t in ss
    case Call(f, args) => f in ss && HasAllStrs(args, ss)
    case Bin(_, a, b) => HasStrs(a, ss) && HasStrs(b, ss)
    case AndAnd(a, b) => HasStrs(a, ss) && HasStrs(b, ss)
    case OrOr(a, b) => HasStrs(a, ss) && HasStrs(b, ss)
    case Un(_, a) => HasStrs(a, ss)
    case Assign(_, _, a) => HasStrs(a, ss)
    case _ => true
  }

  predicate HasAllStrs(es: seq<Expr>, ss: seq<string>)
    decreases es, 0
  {
    |es| == 0 || (HasStrs(es[0], ss) && HasAllStrs(es[1..], ss))
  }

  predicate OptHas(e: Option<Expr>, ss: seq<string>) {
    e.Some? ==> HasStrs(e.value, ss)
  }

  predicate StartHas(st: ForInit, ss: seq<string>) {
    match st
    case NoInit => true
    case DeclInit(_, _, init) => OptHas(init, ss)
    case ExprInit(e) => HasStrs(e, ss)
  }

  predicate StmtHas(s: Stmt, scope: seq<Sym>, reg: seq<Fn>, ss: seq<string>)
    decreases s, 1
  {
    match s
    case ExprStmt(e) => HasStrs(Effective(e, scope, reg), ss)
    case VarDecl(_, _, init) => OptHas(init, ss)
    case Block(b) => StmtsHas(b, scope, reg, ss)
    case If(c, t, els) =>
      && HasStrs(c, ss)
      && StmtHas(t, scope, reg, ss)
      && (match els case None => true case Some(f) => StmtHas(f, SymsAfter(t, scope), reg, ss))
    case While(c, b) => HasStrs(c, ss) && StmtHas(b, scope, reg, ss)
    case For(st, test, post, b) =>
      && StartHas(st, ss)
      && OptHas(test, ss)
      && StmtHas(b, StartSyms(st, scope), reg, ss)
      && OptHas(post, ss)
    case Return(v) => OptHas(v, ss)
    case FuncDecl(_, _, _, _) => true
  }

  predicate StmtsHas(b: seq<Stmt>, scope: seq<Sym>, reg: seq<Fn>, ss: seq<string>)
    decreases b, 0
  {
    |b| == 0 || (StmtHas(b[0], scope, reg, ss) && StmtsHas(b[1..], SymsAfter(b[0], scope), reg, ss))
  }
}
