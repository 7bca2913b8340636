/** How deep the stack gets. Code without `&&`, `||` and prefix `++`/`--` has one
    operand height at each instruction, found by scanning it once from front to
    back; where all calls are of builtins that height bounds every run, and a
    line whose variables and deepest expression fit never overflows. */
module StackDepth {
  import opened Wrappers
  import opened Word
  import opened Ast
  import opened Bytecode
  import opened CodeGen
  import opened CodeGenFacts
  import opened Linking
  import opened Vm
  import opened Compiled
  import opened Meaning
  import opened Simulation
  import opened Session
  import opened Shell
  import opened Reentry
  import C = Compiler

  // ---- the depth of a program ----

  function Max(a: nat, b: nat): nat { if a < b then b else a }

  /** The most operands at any time while `e` is computed. */
  function Depth(e: Expr, reg: seq<Fn>): (d: nat)
    ensures d >= 1
    decreases e, 1
  {
    match e
    case Call(f, args) => Max(1, Max(ArgsDepth(args, reg), |args| + |Pads(reg, f, |args|)|))
    case Bin(_, a, b) => Max(Depth(a, reg), 1 + Depth(b, reg))
    case AndAnd(a, b) => Max(Depth(a, reg), 1 + Depth(b, reg))
    case OrOr(a, b) => Max(Depth(a, reg), 1 + Depth(b, reg))
    case Un(_, a) => Depth(a, reg)
    case PostInc(_, _) => 3
    case PreInc(_, _) => 3
    case Assign(op, _, a) => if op.Set? then Max(2, Depth(a, reg)) else 1 + Depth(a, reg)
    case _ => 1
  }

  function ArgsDepth(es: seq<Expr>, reg: seq<Fn>): nat
    decreases es, 0
  {
    if |es| == 0 then 0 else Max(Depth(es[0], reg), 1 + ArgsDepth(es[1..], reg))
  }

  function OptDepth(e: Option<Expr>, reg: seq<Fn>): nat { if e.Some? then Depth(e.value, reg) else 0 }

  function StartDepth(st: ForInit, reg: seq<Fn>): nat {
    match st
    case NoInit => 0
    case DeclInit(_, _, init) => OptDepth(init, reg)
    case ExprInit(e) => Depth(e, reg)
  }

  function StmtDepth(s: Stmt, scope: seq<Sym>, reg: seq<Fn>): nat
    decreases s, 1
  {
    match s
    case ExprStmt(e) => Depth(Effective(e, scope, reg), reg)
    case VarDecl(_, _, init) => OptDepth(init, reg)
    case Block(ss) => StmtsDepth(ss, scope, reg)
    case If(c, t, els) =>
      Max(Depth(c, reg), Max(StmtDepth(t, scope, reg),
        match els case None => 0 case Some(f) => StmtDepth(f, SymsAfter(t, scope), reg)))
    case While(c, b) => Max(Depth(c, reg), StmtDepth(b, scope, reg))
    case For(st, test, post, b) =>
      Max(Max(StartDepth(st, reg), OptDepth(test, reg)),
          Max(StmtDepth(b, StartSyms(st, scope), reg), OptDepth(post, reg)))
    case Return(v) => OptDepth(v, reg)
    case FuncDecl(_, _, _, _) => 0
  }

  function StmtsDepth(ss: seq<Stmt>, scope: seq<Sym>, reg: seq<Fn>): nat
    decreases ss, 0
  {
    if |ss| == 0 then 0 else Max(StmtDepth(ss[0], scope, reg), StmtsDepth(ss[1..], SymsAfter(ss[0], scope), reg))
  }

  function LineDepth(stmts: seq<Stmt>, scope: seq<Sym>, reg: seq<Fn>): nat
    decreases |stmts|
  {
    if |stmts| == 0 then 0
    else
      Max(StmtDepth(stmts[0], scope, reg),
          LineDepth(stmts[1..], SymsAfter(stmts[0], scope), RegAfter(stmts[0], reg)))
  }

  // ---- programs that call builtins only ----

  predicate IsBuiltin(reg: seq<Fn>, f: string) {
    Lookup(reg, f).Some? && reg[Lookup(reg, f).value].builtin.Some?
  }

  /** Every call names a builtin of `last`. */
  predicate Flat(e: Expr, last: seq<Fn>)
    decreases e, 1
  {
    match e
    case Call(f, args) => IsBuiltin(last, f) && AllFlat(args, last)
    case Bin(_, a, b) => Flat(a, last) && Flat(b, last)
    case AndAnd(a, b) => Flat(a, last) && Flat(b, last)
    case OrOr(a, b) => Flat(a, last) && Flat(b, last)
    case Un(_, a) => Flat(a, last)
    case Assign(_, _, a) => Flat(a, last)
    case _ => true
  }

  predicate AllFlat(es: seq<Expr>, last: seq<Fn>)
    decreases es, 0
  {
    |es| == 0 || (Flat(es[0], last) && AllFlat(es[1..], last))
  }

  predicate OptFlat(e: Option<Expr>, last: seq<Fn>) { e.Some? ==> Flat(e.value, last) }

  predicate StartFlat(st: ForInit, last: seq<Fn>) {
    match st
    case NoInit => true
    case DeclInit(_, _, init) => OptFlat(init, last)
    case ExprInit(e) => Flat(e, last)
  }

  predicate StmtFlat(s: Stmt, scope: seq<Sym>, reg: seq<Fn>, last: seq<Fn>)
    decreases s, 1
  {
    match s
    case ExprStmt(e) => Flat(Effective(e, scope, reg), last)
    case VarDecl(_, _, init) => OptFlat(init, last)
    case Block(ss) => StmtsFlat(ss, scope, reg, last)
    case If(c, t, els) =>
      && Flat(c, last) && StmtFlat(t, scope, reg, last)
      && (match els case None => true case Some(f) => StmtFlat(f, SymsAfter(t, scope), reg, last))
    case While(c, b) => Flat(c, last) && StmtFlat(b, scope, reg, last)
    case For(st, test, post, b) =>
      StartFlat(st, last) && OptFlat(test, last) && OptFlat(post, last) && StmtFlat(b, StartSyms(st, scope), reg, last)
    case Return(_) => false
    case FuncDecl(_, _, _, _) => true
  }

  predicate StmtsFlat(ss: seq<Stmt>, scope: seq<Sym>, reg: seq<Fn>, last: seq<Fn>)
    decreases ss, 0
  {
    |ss| == 0 || (StmtFlat(ss[0], scope, reg, last) && StmtsFlat(ss[1..], SymsAfter(ss[0], scope), reg, last))
  }

  predicate LineFlat(stmts: seq<Stmt>, scope: seq<Sym>, reg: seq<Fn>, last: seq<Fn>)
    decreases |stmts|
  {
    |stmts| == 0 ||
    (StmtFlat(stmts[0], scope, reg, last)
     && LineFlat(stmts[1..], SymsAfter(stmts[0], scope), RegAfter(stmts[0], reg), last))
  }

  // ---- heights by scanning ----

  /** The name is a builtin's whenever it is looked up. */
  ghost predicate AlwaysBuiltin(m: Machine, name: string) {
    forall tr: Trace :: var reg := RegNow(m, tr); Lookup(reg, name).Some? ==> reg[Lookup(reg, name).value].builtin.Some?
  }

  /** May instruction `i` meet `h` operands? Jumps are for statements, where
      there are none left. */
  ghost predicate Takes(m: Machine, f: Fn, i: Instr, h: int) {
    match i
    case Push(_) => true
    case PushStr(_) => true
    case Load(_) => true
    case Dup => h >= 1
    case Pop => h >= 1
    case Store(_) => h >= 1
    case CallI(si, count) => count <= h && (si < |f.strings| ==> AlwaysBuiltin(m, f.strings[si]))
    case Ret => false
    case Jmp(_) => h == 0
    case JmpF(_) => h == 1
    case JmpT(_) => false
    case Arith(_) => h >= 2
    case NotI => h >= 1
    case NegI => h >= 1
    case BNotI => h >= 1
    case Halt => true
  }

  function Next(i: Instr, h: int): int {
    match i
    case Push(_) => h + 1
    case PushStr(_) => h + 1
    case Load(_) => h + 1
    case Dup => h + 1
    case Pop => h - 1
    case Store(_) => h - 1
    case CallI(_, count) => h - count + 1
    case JmpF(_) => h - 1
    case JmpT(_) => h - 1
    case Arith(_) => h - 1
    case _ => h
  }

  /** Scanning from `p` with `h` operands one comes to `q` with `k`, and never
      has more than `d`. */
  ghost predicate Scan(m: Machine, f: Fn, p: nat, h: int, q: nat, k: int, d: int)
    decreases q - p
  {
    if p >= q then p == q && h == k
    else
      var r := Fetch(f.code, p);
      r.Got? && r.size >= 1 && Takes(m, f, r.i, h) && Next(r.i, h) <= d
      && Scan(m, f, p + r.size, Next(r.i, h), q, k, d)
  }

  predicate Jumps(i: Instr) { i.Jmp? || i.JmpF? || i.JmpT? }

  function Target(i: Instr): nat
    requires Jumps(i)
  {
    match i
    case Jmp(t) => t
    case JmpF(t) => t
    case JmpT(t) => t
  }

  /** Jumps between `p` and `q` go where scanning from the start finds nothing on
      the stack. */
  ghost predicate Lands(m: Machine, f: Fn, p: nat, q: nat, d: int)
    decreases q - p
  {
    p >= q ||
    (var r := Fetch(f.code, p);
    r.Got? && r.size >= 1 && (Jumps(r.i) ==> Scan(m, f, 0, 0, Target(r.i), 0, d)) && Lands(m, f, p + r.size, q, d))
  }

  ghost predicate Seg(m: Machine, f: Fn, p: nat, h: int, q: nat, k: int, d: int) {
    Scan(m, f, p, h, q, k, d) && Lands(m, f, p, q, d)
  }

  lemma {:induction false} ScanThen(m: Machine, f: Fn, p: nat, h: int, q: nat, k: int, r: nat, l: int, d: int)
    requires Scan(m, f, p, h, q, k, d) && Scan(m, f, q, k, r, l, d)
    ensures Scan(m, f, p, h, r, l, d) && p <= q <= r
    decreases q - p
  {
    hide Fetch, Takes;
    ScanForward(m, f, q, k, r, l, d);
    if p < q {
      var x := Fetch(f.code, p);
      ScanThen(m, f, p + x.size, Next(x.i, h), q, k, r, l, d);
    }
  }

  lemma {:induction false} ScanForward(m: Machine, f: Fn, p: nat, h: int, q: nat, k: int, d: int)
    requires Scan(m, f, p, h, q, k, d)
    ensures p <= q && (p < q ==> k <= d)
    decreases q - p
  {
    hide Fetch, Takes;
    if p < q {
      var x := Fetch(f.code, p);
      ScanForward(m, f, p + x.size, Next(x.i, h), q, k, d);
    }
  }

  lemma {:induction false} SegThen(m: Machine, f: Fn, p: nat, h: int, q: nat, k: int, r: nat, l: int, d: int)
    requires Seg(m, f, p, h, q, k, d) && Seg(m, f, q, k, r, l, d)
    ensures Seg(m, f, p, h, r, l, d)
    decreases q - p
  {
    hide Fetch, Takes;
    ScanThen(m, f, p, h, q, k, r, l, d);
    if p < q {
      var x := Fetch(f.code, p);
      assert Seg(m, f, p + x.size, Next(x.i, h), q, k, d);
      SegThen(m, f, p + x.size, Next(x.i, h), q, k, r, l, d);
    }
  }

  /** Scans that start together agree as far as both go. */
  lemma {:induction false} ScanOn(m: Machine, f: Fn, p: nat, h: int, x: nat, i: int, q: nat, k: int, d: int)
    requires Seg(m, f, p, h, q, k, d) && Scan(m, f, p, h, x, i, d) && x <= q
    ensures Seg(m, f, x, i, q, k, d)
    decreases x - p
  {
    hide Fetch, Takes;
    if p < x {
      var r := Fetch(f.code, p);
      ScanOn(m, f, p + r.size, Next(r.i, h), x, i, q, k, d);
    }
  }

  lemma One(m: Machine, f: Fn, p: nat, i: Instr, h: int, d: int)
    requires At(f.code, p, Enc(i)) && Takes(m, f, i, h) && Next(i, h) <= d
    ensures Scan(m, f, p, h, p + |Enc(i)|, Next(i, h), d)
    ensures (Jumps(i) ==> Scan(m, f, 0, 0, Target(i), 0, d)) ==> Seg(m, f, p, h, p + |Enc(i)|, Next(i, h), d)
  {
    FetchEnc(f.code, p, i);
    hide Fetch, Takes, Enc;
    var q := p + |Enc(i)|;
    assert Scan(m, f, q, Next(i, h), q, Next(i, h), d) && Lands(m, f, q, q, d);
  }

  lemma Nothing(m: Machine, f: Fn, p: nat, h: int, d: int)
    ensures Seg(m, f, p, h, p, h, d)
  {
  }

  // ---- expressions ----

  /** The tables of the code, and builtins that stay builtins. */
  ghost predicate Setting(m: Machine, f: Fn, env: Env, last: seq<Fn>) {
    && f.strings == env.strs && |env.strs| <= MAX_STRINGS && |f.code| < TWO32
    && forall name :: IsBuiltin(last, name) ==> AlwaysBuiltin(m, name)
  }

  /** From `h` operands an expression comes to one more. */
  lemma {:induction false} ExprSeg(m: Machine, f: Fn, e: Expr, env: Env, last: seq<Fn>, pc: nat, h: nat, d: int)
    requires Setting(m, f, env, last) && At(f.code, pc, ExprCode(e, env, pc))
    requires LeakFree(e) && Flat(e, last) && HasStrs(e, env.strs) && h + Depth(e, env.reg) <= d
    ensures Seg(m, f, pc, h, pc + |ExprCode(e, env, pc)|, h + 1, d)
    decreases e, 1
  {
    hide Enc, Seg, At, Setting, Pads, Slot, SlotOperand, Scan, Lands;
    match e
    case Lit(v) => OneSeg(m, f, pc, Push(v), h, d);
    case StrLit(t) => OneSeg(m, f, pc, PushStr(ToU32(IndexOf(env.strs, t))), h, d);
    case Var(x) => OneSeg(m, f, pc, Load(SlotOperand(env.syms, x)), h, d);
    case Call(_, _) => CallSeg(m, f, e, env, last, pc, h, d);
    case Bin(_, _, _) => BinSeg(m, f, e, env, last, pc, h, d);
    case Un(_, _) => UnarySeg(m, f, e, env, last, pc, h, d);
    case PostInc(x, up) => PostSeg(m, f, x, up, env, pc, h, d);
    case Assign(_, _, _) => AssignSeg(m, f, e, env, last, pc, h, d);
  }

  lemma {:induction false} BinSeg(m: Machine, f: Fn, e: Expr, env: Env, last: seq<Fn>, pc: nat, h: nat, d: int)
    requires e.Bin? && Setting(m, f, env, last) && At(f.code, pc, ExprCode(e, env, pc))
    requires LeakFree(e) && Flat(e, last) && HasStrs(e, env.strs) && h + Depth(e, env.reg) <= d
    ensures Seg(m, f, pc, h, pc + |ExprCode(e, env, pc)|, h + 1, d)
    decreases e, 0
  {
    hide Enc, Seg, At, Setting, Pads, Slot, SlotOperand;
    var ca := ExprCode(e.a, env, pc);
    var cb := ExprCode(e.b, env, pc + |ca|);
    AtSplit(f.code, pc, ca, cb + ArithOf(e.op));
    AtSplit(f.code, pc + |ca|, cb, ArithOf(e.op));
    ExprSeg(m, f, e.a, env, last, pc, h, d);
    ExprSeg(m, f, e.b, env, last, pc + |ca|, h + 1, d);
    OneSeg(m, f, pc + |ca| + |cb|, Arith(e.op), h + 2, d);
    SegThen(m, f, pc, h, pc + |ca|, h + 1, pc + |ca| + |cb|, h + 2, d);
    SegThen(m, f, pc, h, pc + |ca| + |cb|, h + 2, pc + |ca| + |cb| + |ArithOf(e.op)|, h + 1, d);
  }

  lemma {:induction false} UnarySeg(m: Machine, f: Fn, e: Expr, env: Env, last: seq<Fn>, pc: nat, h: nat, d: int)
    requires e.Un? && Setting(m, f, env, last) && At(f.code, pc, ExprCode(e, env, pc))
    requires LeakFree(e) && Flat(e, last) && HasStrs(e, env.strs) && h + Depth(e, env.reg) <= d
    ensures Seg(m, f, pc, h, pc + |ExprCode(e, env, pc)|, h + 1, d)
    decreases e, 0
  {
    hide Enc, Seg, At, Setting, Pads, Slot, SlotOperand, UnCode;
    var ca := ExprCode(e.a, env, pc);
    AtSplit(f.code, pc, ca, UnCode(e.uop));
    ExprSeg(m, f, e.a, env, last, pc, h, d);
    UnSeg(m, f, e.uop, pc + |ca|, h + 1, d);
    SegThen(m, f, pc, h, pc + |ca|, h + 1, pc + |ca| + |UnCode(e.uop)|, h + 1, d);
  }

  /** An instruction that is no jump. */
  lemma OneSeg(m: Machine, f: Fn, p: nat, i: Instr, h: int, d: int)
    requires At(f.code, p, Enc(i)) && Takes(m, f, i, h) && Next(i, h) <= d && !Jumps(i)
    ensures Seg(m, f, p, h, p + |Enc(i)|, Next(i, h), d)
  {
    hide Enc, At, Takes, Seg;
    One(m, f, p, i, h, d);
  }

  lemma UnSeg(m: Machine, f: Fn, op: UnOp, p: nat, h: int, d: int)
    requires At(f.code, p, UnCode(op)) && 1 <= h <= d
    ensures Seg(m, f, p, h, p + |UnCode(op)|, h, d)
  {
    hide Enc, At, Seg;
    match op
    case Neg => OneSeg(m, f, p, NegI, h, d);
    case Not => OneSeg(m, f, p, NotI, h, d);
    case BNot => OneSeg(m, f, p, BNotI, h, d);
  }

  lemma PostSeg(m: Machine, f: Fn, x: string, up: bool, env: Env, pc: nat, h: nat, d: int)
    requires At(f.code, pc, ExprCode(PostInc(x, up), env, pc)) && h + 3 <= d
    ensures Seg(m, f, pc, h, pc + |ExprCode(PostInc(x, up), env, pc)|, h + 1, d)
  {
    hide Enc, Seg, At, SlotOperand;
    var a, b, c, g := Load(SlotOperand(env.syms, x)), Push(if up then 1 else TWO64 - 1), Arith(Add),
      Store(SlotOperand(env.syms, x));
    var ca, cd, cb, cc, cg := Enc(a), Enc(Dup), Enc(b), Enc(c), Enc(g);
    AtSplit(f.code, pc, ca, cd + (cb + (cc + cg)));
    AtSplit(f.code, pc + |ca|, cd, cb + (cc + cg));
    AtSplit(f.code, pc + |ca| + |cd|, cb, cc + cg);
    AtSplit(f.code, pc + |ca| + |cd| + |cb|, cc, cg);
    OneSeg(m, f, pc, a, h, d);
    OneSeg(m, f, pc + |ca|, Dup, h + 1, d);
    OneSeg(m, f, pc + |ca| + |cd|, b, h + 2, d);
    OneSeg(m, f, pc + |ca| + |cd| + |cb|, c, h + 3, d);
    OneSeg(m, f, pc + |ca| + |cd| + |cb| + |cc|, g, h + 2, d);
    SegThen(m, f, pc, h, pc + |ca|, h + 1, pc + |ca| + |cd|, h + 2, d);
    SegThen(m, f, pc, h, pc + |ca| + |cd|, h + 2, pc + |ca| + |cd| + |cb|, h + 3, d);
    SegThen(m, f, pc, h, pc + |ca| + |cd| + |cb|, h + 3, pc + |ca| + |cd| + |cb| + |cc|, h + 2, d);
    SegThen(m, f, pc, h, pc + |ca| + |cd| + |cb| + |cc|, h + 2, pc + |ca| + |cd| + |cb| + |cc| + |cg|, h + 1, d);
  }

  /** The copy on the stack, and the store. */
  lemma KeepSeg(m: Machine, f: Fn, x: string, env: Env, p: nat, h: nat, d: int)
    requires At(f.code, p, Enc(Dup) + StoreCode(x, env)) && 1 <= h < d
    ensures Seg(m, f, p, h, p + |Enc(Dup) + StoreCode(x, env)|, h, d)
  {
    hide Enc, Seg, At, SlotOperand;
    var g := Store(SlotOperand(env.syms, x));
    AtSplit(f.code, p, Enc(Dup), Enc(g));
    OneSeg(m, f, p, Dup, h, d);
    OneSeg(m, f, p + |Enc(Dup)|, g, h + 1, d);
    SegThen(m, f, p, h, p + |Enc(Dup)|, h + 1, p + |Enc(Dup)| + |Enc(g)|, h, d);
  }

  lemma {:induction false} AssignSeg(m: Machine, f: Fn, e: Expr, env: Env, last: seq<Fn>, pc: nat, h: nat, d: int)
    requires e.Assign? && Setting(m, f, env, last) && At(f.code, pc, ExprCode(e, env, pc))
    requires LeakFree(e) && Flat(e, last) && HasStrs(e, env.strs) && h + Depth(e, env.reg) <= d
    ensures Seg(m, f, pc, h, pc + |ExprCode(e, env, pc)|, h + 1, d)
    decreases e, 0
  {
    hide Enc, Seg, At, Setting, Pads, Slot, SlotOperand, Scan, Lands, StoreCode;
    var keep := Enc(Dup) + StoreCode(e.name, env);
    if e.aop.Set? {
      var ca := ExprCode(e.a, env, pc);
      AtSplit(f.code, pc, ca, keep);
      ExprSeg(m, f, e.a, env, last, pc, h, d);
      KeepSeg(m, f, e.name, env, pc + |ca|, h + 1, d);
      SegThen(m, f, pc, h, pc + |ca|, h + 1, pc + |ca| + |keep|, h + 1, d);
    } else {
      var l, ca, op := LoadCode(e.name, env), ExprCode(e.a, env, pc + 5), ArithOf(e.aop.op);
      LoadSize(e.name, env);
      AtSplit(f.code, pc, l, ca + (op + keep));
      AtSplit(f.code, pc + 5, ca, op + keep);
      AtSplit(f.code, pc + 5 + |ca|, op, keep);
      OneSeg(m, f, pc, Load(SlotOperand(env.syms, e.name)), h, d);
      ExprSeg(m, f, e.a, env, last, pc + 5, h + 1, d);
      OneSeg(m, f, pc + 5 + |ca|, Arith(e.aop.op), h + 2, d);
      KeepSeg(m, f, e.name, env, pc + 5 + |ca| + |op|, h + 1, d);
      SegThen(m, f, pc, h, pc + 5, h + 1, pc + 5 + |ca|, h + 2, d);
      SegThen(m, f, pc, h, pc + 5 + |ca|, h + 2, pc + 5 + |ca| + |op|, h + 1, d);
      SegThen(m, f, pc, h, pc + 5 + |ca| + |op|, h + 1, pc + 5 + |ca| + |op| + |keep|, h + 1, d);
    }
  }

  lemma LoadSize(x: string, env: Env)
    ensures |LoadCode(x, env)| == 5
  {
    hide SlotOperand;
  }

  lemma {:induction false} CallSeg(m: Machine, f: Fn, e: Expr, env: Env, last: seq<Fn>, pc: nat, h: nat, d: int)
    requires e.Call? && Setting(m, f, env, last) && At(f.code, pc, ExprCode(e, env, pc))
    requires LeakFree(e) && Flat(e, last) && HasStrs(e, env.strs) && h + Depth(e, env.reg) <= d
    ensures Seg(m, f, pc, h, pc + |ExprCode(e, env, pc)|, h + 1, d)
    decreases e, 0
  {
    hide Enc, Seg, At, Setting, Pads, Scan, Lands, ArgsCode, PadCode, AlwaysBuiltin, IsBuiltin;
    var pads := Pads(env.reg, e.callee, |e.args|);
    var n := |e.args| + |pads|;
    var call := CallI(ToU32(IndexOf(env.strs, e.callee)), ToU32(n));
    var ca, cp := ArgsCode(e.args, env, pc), PadCode(pads);
    AtSplit(f.code, pc, ca, cp + Enc(call));
    AtSplit(f.code, pc + |ca|, cp, Enc(call));
    ArgsSeg(m, f, e.args, env, last, pc, h, d);
    PadsSeg(m, f, pads, pc + |ca|, h + |e.args|, d);
    ArgsCodeSize(e.args, env, pc);
    PadCodeSize(pads);
    CallTakes(m, f, e, env, last, n, h + n, pc, |ca|, |cp|);
    OneSeg(m, f, pc + |ca| + |cp|, call, h + n, d);
    SegThen(m, f, pc, h, pc + |ca|, h + |e.args|, pc + |ca| + |cp|, h + n, d);
    SegThen(m, f, pc, h, pc + |ca| + |cp|, h + n, pc + |ca| + |cp| + |Enc(call)|, h + 1, d);
  }

  lemma CallTakes(m: Machine, f: Fn, e: Expr, env: Env, last: seq<Fn>, n: nat, h: int, pc: nat, a: nat, b: nat)
    requires e.Call? && Setting(m, f, env, last) && IsBuiltin(last, e.callee) && e.callee in env.strs && n <= h
    requires n <= a + b && pc + a + b <= |f.code|
    ensures ToU32(n) == n && Takes(m, f, CallI(ToU32(IndexOf(env.strs, e.callee)), ToU32(n)), h)
  {
    hide AlwaysBuiltin, IsBuiltin;
  }

  lemma {:induction false} ArgsSeg(m: Machine, f: Fn, es: seq<Expr>, env: Env, last: seq<Fn>, pc: nat, h: nat, d: int)
    requires Setting(m, f, env, last) && At(f.code, pc, ArgsCode(es, env, pc))
    requires AllLeakFree(es) && AllFlat(es, last) && HasAllStrs(es, env.strs) && h + ArgsDepth(es, env.reg) <= d
    ensures Seg(m, f, pc, h, pc + |ArgsCode(es, env, pc)|, h + |es|, d)
    decreases es, 0
  {
    hide Enc, Seg, At, Setting, ExprCode, Depth, LeakFree, Flat, HasStrs;
    if |es| == 0 {
      Nothing(m, f, pc, h, d);
    } else {
      var c := ExprCode(es[0], env, pc);
      var rest := ArgsCode(es[1..], env, pc + |c|);
      AtSplit(f.code, pc, c, rest);
      ExprSeg(m, f, es[0], env, last, pc, h, d);
      ArgsSeg(m, f, es[1..], env, last, pc + |c|, h + 1, d);
      SegThen(m, f, pc, h, pc + |c|, h + 1, pc + |c| + |rest|, h + |es|, d);
    }
  }

  lemma {:induction false} PadsSeg(m: Machine, f: Fn, vals: seq<u64>, p: nat, h: nat, d: int)
    requires At(f.code, p, PadCode(vals)) && h + |vals| <= d
    ensures Seg(m, f, p, h, p + |PadCode(vals)|, h + |vals|, d)
    decreases |vals|
  {
    hide Enc, Seg, At;
    if |vals| == 0 {
      Nothing(m, f, p, h, d);
    } else {
      var c, rest := Enc(Push(vals[0])), PadCode(vals[1..]);
      AtSplit(f.code, p, c, rest);
      OneSeg(m, f, p, Push(vals[0]), h, d);
      PadsSeg(m, f, vals[1..], p + |c|, h + 1, d);
      SegThen(m, f, p, h, p + |c|, h + 1, p + |c| + |rest|, h + |vals|, d);
    }
  }

  // ---- statements ----

  /** Scanning goes on from a place where nothing is on the stack. */
  lemma Arrive(m: Machine, f: Fn, p: nat, q: nat, d: int)
    requires Scan(m, f, 0, 0, p, 0, d) && Seg(m, f, p, 0, q, 0, d)
    ensures Scan(m, f, 0, 0, q, 0, d)
  {
    ScanThen(m, f, 0, 0, p, 0, q, 0, d);
  }

  /** An expression, and the instruction that takes its value. */
  lemma UsedSeg(m: Machine, f: Fn, e: Expr, i: Instr, env: Env, last: seq<Fn>, pc: nat, d: int)
    requires Setting(m, f, env, last) && At(f.code, pc, ExprCode(e, env, pc) + Enc(i)) && (i.Pop? || i.Store?)
    requires LeakFree(e) && Flat(e, last) && HasStrs(e, env.strs) && Depth(e, env.reg) <= d
    ensures Seg(m, f, pc, 0, pc + |ExprCode(e, env, pc) + Enc(i)|, 0, d)
  {
    hide Enc, Seg, At, Setting, ExprCode, Depth, LeakFree, Flat, HasStrs;
    var c := ExprCode(e, env, pc);
    AtSplit(f.code, pc, c, Enc(i));
    ExprSeg(m, f, e, env, last, pc, 0, d);
    OneSeg(m, f, pc + |c|, i, 1, d);
    SegThen(m, f, pc, 0, pc + |c|, 1, pc + |c| + |Enc(i)|, 0, d);
  }

  /** A test, and the jump that leaves if it fails; `end` is scanned too. */
  lemma TestSeg(m: Machine, f: Fn, e: Expr, end: nat, env: Env, last: seq<Fn>, pc: nat, d: int)
    requires Setting(m, f, env, last) && At(f.code, pc, ExprCode(e, env, pc) + Enc(JmpF(ToU32(end)))) && end < TWO32
    requires LeakFree(e) && Flat(e, last) && HasStrs(e, env.strs) && Depth(e, env.reg) <= d
    ensures Scan(m, f, pc, 0, pc + |ExprCode(e, env, pc)| + 5, 0, d)
    ensures Scan(m, f, 0, 0, end, 0, d) ==> Seg(m, f, pc, 0, pc + |ExprCode(e, env, pc)| + 5, 0, d)
  {
    hide Enc, At, Setting, ExprCode, Depth, LeakFree, Flat, HasStrs, Scan, Lands, Seg;
    var c, j := ExprCode(e, env, pc), JmpF(ToU32(end));
    JumpSize(ToU32(end));
    AtSplit(f.code, pc, c, Enc(j));
    ExprSeg(m, f, e, env, last, pc, 0, d);
    SegScan(m, f, pc, 0, pc + |c|, 1, d);
    JumpSeg(m, f, j, pc + |c|, 1, d);
    ScanThen(m, f, pc, 0, pc + |c|, 1, pc + |c| + 5, 0, d);
    if Scan(m, f, 0, 0, end, 0, d) {
      SegThen(m, f, pc, 0, pc + |c|, 1, pc + |c| + 5, 0, d);
    }
  }

  lemma SegScan(m: Machine, f: Fn, p: nat, h: int, q: nat, k: int, d: int)
    requires Seg(m, f, p, h, q, k, d)
    ensures Scan(m, f, p, h, q, k, d)
  {
  }

  lemma JumpSize(t: u32)
    ensures |Enc(JmpF(t))| == 5 && |Enc(Jmp(t))| == 5
  {
  }

  lemma JumpSeg(m: Machine, f: Fn, j: Instr, p: nat, h: int, d: int)
    requires (j.Jmp? && h == 0) || (j.JmpF? && h == 1)
    requires At(f.code, p, Enc(j)) && 0 <= d
    ensures Scan(m, f, p, h, p + 5, 0, d)
    ensures Scan(m, f, 0, 0, Target(j), 0, d) ==> Seg(m, f, p, h, p + 5, 0, d)
  {
    hide Enc, At, Scan, Lands, Seg;
    JumpSize(Target(j));
    One(m, f, p, j, h, d);
  }

  lemma {:induction false} StmtSeg(m: Machine, f: Fn, s: Stmt, scope: seq<Sym>, env: Env, last: seq<Fn>, pc: nat,
      d: int)
    requires Setting(m, f, env, last) && At(f.code, pc, StmtCode(s, scope, env, pc)) && Scan(m, f, 0, 0, pc, 0, d)
    requires StmtLeakFree(s) && StmtFlat(s, scope, env.reg, last) && StmtHas(s, scope, env.reg, env.strs)
    requires StmtDepth(s, scope, env.reg) <= d && 0 <= d
    ensures Seg(m, f, pc, 0, pc + |StmtCode(s, scope, env, pc)|, 0, d)
    decreases s, 2
  {
    hide Enc, Seg, At, Setting, Scan, Lands, ExprCode, Depth, LeakFree, Flat, HasStrs, Slot, SlotOperand, Effective;
    match s
    case ExprStmt(e) =>
      EffectiveLeakFree(e, scope, env.reg);
      UsedSeg(m, f, Effective(e, scope, env.reg), Pop, env, last, pc, d);
    case VarDecl(x, _, init) => DeclSeg(m, f, x, init, env, last, pc, d);
    case Block(ss) => StmtsSeg(m, f, ss, scope, env, last, pc, d);
    case If(_, _, els) => if els.None? { IfSeg(m, f, s, scope, env, last, pc, d); } else {
        IfElseSeg(m, f, s, scope, env, last, pc, d);
      }
    case While(_, _) => WhileSeg(m, f, s, scope, env, last, pc, d);
    case For(_, _, _, _) => ForSeg(m, f, s, scope, env, last, pc, d);
    case FuncDecl(_, _, _, _) => Nothing(m, f, pc, 0, d);
  }

  lemma EffectiveLeakFree(e: Expr, scope: seq<Sym>, reg: seq<Fn>)
    requires LeakFree(e)
    ensures LeakFree(Effective(e, scope, reg))
  {
    hide Slot, Lookup;
  }

  lemma DeclSeg(m: Machine, f: Fn, x: string, init: Option<Expr>, env: Env, last: seq<Fn>, pc: nat, d: int)
    requires Setting(m, f, env, last) && At(f.code, pc, DeclCode(x, init, env, pc))
    requires OptLeakFree(init) && OptFlat(init, last) && OptHas(init, env.strs) && OptDepth(init, env.reg) <= d
    ensures Seg(m, f, pc, 0, pc + |DeclCode(x, init, env, pc)|, 0, d)
  {
    hide Enc, Seg, At, Setting, ExprCode, Depth, LeakFree, Flat, HasStrs, SlotOperand;
    if init.Some? {
      UsedSeg(m, f, init.value, Store(SlotOperand(env.syms, x)), env, last, pc, d);
    } else {
      Nothing(m, f, pc, 0, d);
    }
  }

  lemma {:induction false} StmtsSeg(m: Machine, f: Fn, ss: seq<Stmt>, scope: seq<Sym>, env: Env, last: seq<Fn>, pc: nat,
      d: int)
    requires Setting(m, f, env, last) && At(f.code, pc, StmtsCode(ss, scope, env, pc)) && Scan(m, f, 0, 0, pc, 0, d)
    requires StmtsLeakFree(ss) && StmtsFlat(ss, scope, env.reg, last) && StmtsHas(ss, scope, env.reg, env.strs)
    requires StmtsDepth(ss, scope, env.reg) <= d && 0 <= d
    ensures Seg(m, f, pc, 0, pc + |StmtsCode(ss, scope, env, pc)|, 0, d)
    decreases ss, 0
  {
    hide Enc, Seg, At, Setting, Scan, Lands, StmtCode, StmtDepth, StmtLeakFree, StmtFlat, StmtHas, SymsAfter;
    if |ss| == 0 {
      Nothing(m, f, pc, 0, d);
    } else {
      var c := StmtCode(ss[0], scope, env, pc);
      var rest := StmtsCode(ss[1..], SymsAfter(ss[0], scope), env, pc + |c|);
      AtSplit(f.code, pc, c, rest);
      StmtSeg(m, f, ss[0], scope, env, last, pc, d);
      Arrive(m, f, pc, pc + |c|, d);
      StmtsSeg(m, f, ss[1..], SymsAfter(ss[0], scope), env, last, pc + |c|, d);
      SegThen(m, f, pc, 0, pc + |c|, 0, pc + |c| + |rest|, 0, d);
    }
  }

  lemma {:induction false} IfSeg(m: Machine, f: Fn, s: Stmt, scope: seq<Sym>, env: Env, last: seq<Fn>, pc: nat, d: int)
    requires s.If? && s.els.None?
    requires Setting(m, f, env, last) && At(f.code, pc, StmtCode(s, scope, env, pc)) && Scan(m, f, 0, 0, pc, 0, d)
    requires StmtLeakFree(s) && StmtFlat(s, scope, env.reg, last) && StmtHas(s, scope, env.reg, env.strs)
    requires StmtDepth(s, scope, env.reg) <= d && 0 <= d
    ensures Seg(m, f, pc, 0, pc + |StmtCode(s, scope, env, pc)|, 0, d)
    decreases s, 0
  {
    hide Enc, Seg, At, Setting, Scan, Lands, ExprCode, Depth, LeakFree, Flat, HasStrs, SymsAfter;
    var cc := ExprCode(s.cond, env, pc);
    var p1 := pc + |cc| + 5;
    var ct := StmtCode(s.thn, scope, env, p1);
    var end := p1 + |ct|;
    var j := Enc(JmpF(ToU32(end)));
    JumpSize(ToU32(end));
    assert cc + (j + ct) == (cc + j) + ct;
    AtSplit(f.code, pc, cc + j, ct);
    Inside(f.code, p1, ct);
    SettingSize(m, f, env, last);
    TestSeg(m, f, s.cond, end, env, last, pc, d);
    ScanThen(m, f, 0, 0, pc, 0, p1, 0, d);
    StmtSeg(m, f, s.thn, scope, env, last, p1, d);
    Arrive(m, f, p1, end, d);
    SegThen(m, f, pc, 0, p1, 0, end, 0, d);
  }

  lemma Inside(code: seq<byte>, p: nat, part: seq<byte>)
    requires At(code, p, part)
    ensures p + |part| <= |code|
  {
  }

  lemma SettingSize(m: Machine, f: Fn, env: Env, last: seq<Fn>)
    requires Setting(m, f, env, last)
    ensures |f.code| < TWO32
  {
  }

  lemma {:induction false} IfElseSeg(m: Machine, f: Fn, s: Stmt, scope: seq<Sym>, env: Env, last: seq<Fn>, pc: nat,
      d: int)
    requires s.If? && s.els.Some?
    requires Setting(m, f, env, last) && At(f.code, pc, StmtCode(s, scope, env, pc)) && Scan(m, f, 0, 0, pc, 0, d)
    requires StmtLeakFree(s) && StmtFlat(s, scope, env.reg, last) && StmtHas(s, scope, env.reg, env.strs)
    requires StmtDepth(s, scope, env.reg) <= d && 0 <= d
    ensures Seg(m, f, pc, 0, pc + |StmtCode(s, scope, env, pc)|, 0, d)
    decreases s, 0
  {
    hide Enc, Seg, At, Setting, Scan, Lands, ExprCode, Depth, LeakFree, Flat, HasStrs, SymsAfter, StmtCode,
      StmtLeakFree, StmtFlat, StmtHas, StmtDepth;
    IfFacts(s, scope, env, last);
    var sf, f1 := SymsAfter(s.thn, scope), s.els.value;
    var cc := ExprCode(s.cond, env, pc);
    var p1 := pc + |cc| + 5;
    var ct := StmtCode(s.thn, scope, env, p1);
    var p2 := p1 + |ct| + 5;
    var cf := StmtCode(f1, sf, env, p2);
    var end := p2 + |cf|;
    var j, k := Enc(JmpF(ToU32(p2))), Enc(Jmp(ToU32(end)));
    IfElseCode(s, scope, env, pc);
    JumpSize(ToU32(p2));
    JumpSize(ToU32(end));
    LoopAts(f.code, pc, cc + j, ct, k, cf);
    SettingSize(m, f, env, last);
    TestSeg(m, f, s.cond, p2, env, last, pc, d);
    ScanThen(m, f, 0, 0, pc, 0, p1, 0, d);
    StmtSeg(m, f, s.thn, scope, env, last, p1, d);
    Arrive(m, f, p1, p1 + |ct|, d);
    JumpSeg(m, f, Jmp(ToU32(end)), p1 + |ct|, 0, d);
    ScanThen(m, f, 0, 0, p1 + |ct|, 0, p2, 0, d);
    StmtSeg(m, f, f1, sf, env, last, p2, d);
    Arrive(m, f, p2, end, d);
    SegThen(m, f, pc, 0, p1, 0, p1 + |ct|, 0, d);
    SegThen(m, f, pc, 0, p1 + |ct|, 0, p2, 0, d);
    SegThen(m, f, pc, 0, p2, 0, end, 0, d);
  }

  lemma IfFacts(s: Stmt, scope: seq<Sym>, env: Env, last: seq<Fn>)
    requires s.If? && s.els.Some?
    requires StmtLeakFree(s) && StmtFlat(s, scope, env.reg, last) && StmtHas(s, scope, env.reg, env.strs)
    ensures LeakFree(s.cond) && Flat(s.cond, last) && HasStrs(s.cond, env.strs)
    ensures StmtLeakFree(s.thn) && StmtFlat(s.thn, scope, env.reg, last) && StmtHas(s.thn, scope, env.reg, env.strs)
    ensures var f1, sf := s.els.value, SymsAfter(s.thn, scope);
      && StmtLeakFree(f1) && StmtFlat(f1, sf, env.reg, last) && StmtHas(f1, sf, env.reg, env.strs)
      && StmtDepth(s, scope, env.reg) ==
           Max(Depth(s.cond, env.reg), Max(StmtDepth(s.thn, scope, env.reg), StmtDepth(f1, sf, env.reg)))
  {
    hide LeakFree, Flat, HasStrs, Depth, SymsAfter;
  }

  lemma IfElseCode(s: Stmt, scope: seq<Sym>, env: Env, pc: nat)
    requires s.If? && s.els.Some?
    ensures var cc := ExprCode(s.cond, env, pc);
      var p1 := pc + |cc| + 5;
      var ct := StmtCode(s.thn, scope, env, p1);
      var p2 := p1 + |ct| + 5;
      var cf := StmtCode(s.els.value, SymsAfter(s.thn, scope), env, p2);
      var j, k := Enc(JmpF(ToU32(p2))), Enc(Jmp(ToU32(p2 + |cf|)));
      StmtCode(s, scope, env, pc) == (cc + j) + (ct + (k + cf))
  {
    hide Enc, ExprCode, SymsAfter;
    var cc := ExprCode(s.cond, env, pc);
    var p1 := pc + |cc| + 5;
    var ct := StmtCode(s.thn, scope, env, p1);
    var p2 := p1 + |ct| + 5;
    var cf := StmtCode(s.els.value, SymsAfter(s.thn, scope), env, p2);
    var j, k := Enc(JmpF(ToU32(p2))), Enc(Jmp(ToU32(p2 + |cf|)));
    assert cc + (j + (ct + (k + cf))) == (cc + j) + (ct + (k + cf));
  }

  lemma {:induction false} WhileSeg(m: Machine, f: Fn, s: Stmt, scope: seq<Sym>, env: Env, last: seq<Fn>, pc: nat,
      d: int)
    requires s.While?
    requires Setting(m, f, env, last) && At(f.code, pc, StmtCode(s, scope, env, pc)) && Scan(m, f, 0, 0, pc, 0, d)
    requires StmtLeakFree(s) && StmtFlat(s, scope, env.reg, last) && StmtHas(s, scope, env.reg, env.strs)
    requires StmtDepth(s, scope, env.reg) <= d && 0 <= d
    ensures Seg(m, f, pc, 0, pc + |StmtCode(s, scope, env, pc)|, 0, d)
    decreases s, 0
  {
    hide Enc, Seg, At, Setting, Scan, Lands, ExprCode, Depth, LeakFree, Flat, HasStrs;
    var cc := ExprCode(s.cond, env, pc);
    var p1 := pc + |cc| + 5;
    var cb := StmtCode(s.loop, scope, env, p1);
    var end := p1 + |cb| + 5;
    var j, k := Enc(JmpF(ToU32(end))), Enc(Jmp(ToU32(pc)));
    JumpSize(ToU32(end));
    JumpSize(ToU32(pc));
    assert cc + (j + (cb + k)) == (cc + j) + (cb + k);
    AtSplit(f.code, pc, cc + j, cb + k);
    AtSplit(f.code, p1, cb, k);
    Inside(f.code, p1 + |cb|, k);
    SettingSize(m, f, env, last);
    TestSeg(m, f, s.cond, end, env, last, pc, d);
    ScanThen(m, f, 0, 0, pc, 0, p1, 0, d);
    StmtSeg(m, f, s.loop, scope, env, last, p1, d);
    Arrive(m, f, p1, p1 + |cb|, d);
    JumpSeg(m, f, Jmp(ToU32(pc)), p1 + |cb|, 0, d);
    ScanThen(m, f, 0, 0, p1 + |cb|, 0, end, 0, d);
    SegThen(m, f, pc, 0, p1, 0, p1 + |cb|, 0, d);
    SegThen(m, f, pc, 0, p1 + |cb|, 0, end, 0, d);
  }

  predicate StartLeakFree(st: ForInit) {
    match st
    case NoInit => true
    case DeclInit(_, _, init) => OptLeakFree(init)
    case ExprInit(e) => LeakFree(e)
  }

  lemma ForFacts(s: Stmt, scope: seq<Sym>, env: Env, last: seq<Fn>)
    requires s.For?
    requires StmtLeakFree(s) && StmtFlat(s, scope, env.reg, last) && StmtHas(s, scope, env.reg, env.strs)
    ensures StartLeakFree(s.start) && OptLeakFree(s.test) && OptLeakFree(s.post) && StmtLeakFree(s.loop)
    ensures StartFlat(s.start, last) && OptFlat(s.test, last) && OptFlat(s.post, last)
    ensures StmtFlat(s.loop, StartSyms(s.start, scope), env.reg, last)
    ensures StartHas(s.start, env.strs) && OptHas(s.test, env.strs) && OptHas(s.post, env.strs)
    ensures StmtHas(s.loop, StartSyms(s.start, scope), env.reg, env.strs)
    ensures var b := StmtDepth(s.loop, StartSyms(s.start, scope), env.reg);
      StmtDepth(s, scope, env.reg) == Max(Max(StartDepth(s.start, env.reg), OptDepth(s.test, env.reg)),
                                          Max(b, OptDepth(s.post, env.reg)))
  {
    hide OptLeakFree, OptFlat, OptHas, OptDepth, StartFlat, StartHas, StartDepth;
  }

  lemma StartSeg(m: Machine, f: Fn, st: ForInit, env: Env, last: seq<Fn>, pc: nat, d: int)
    requires Setting(m, f, env, last) && At(f.code, pc, StartCode(st, env, pc)) && StartFlat(st, last)
    requires StartLeakFree(st)
    requires StartHas(st, env.strs) && StartDepth(st, env.reg) <= d
    ensures Seg(m, f, pc, 0, pc + |StartCode(st, env, pc)|, 0, d)
  {
    hide Enc, Seg, At, Setting, ExprCode, Depth, LeakFree, Flat, HasStrs;
    match st
    case NoInit => Nothing(m, f, pc, 0, d);
    case DeclInit(x, _, init) => DeclSeg(m, f, x, init, env, last, pc, d);
    case ExprInit(e) => UsedSeg(m, f, e, Pop, env, last, pc, d);
  }

  lemma PostExprSeg(m: Machine, f: Fn, post: Option<Expr>, env: Env, last: seq<Fn>, pc: nat, d: int)
    requires Setting(m, f, env, last) && At(f.code, pc, PostCode(post, env, pc))
    requires OptLeakFree(post) && OptFlat(post, last) && OptHas(post, env.strs) && OptDepth(post, env.reg) <= d
    ensures Seg(m, f, pc, 0, pc + |PostCode(post, env, pc)|, 0, d)
  {
    hide Enc, Seg, At, Setting, ExprCode, Depth, LeakFree, Flat, HasStrs;
    if post.Some? {
      UsedSeg(m, f, post.value, Pop, env, last, pc, d);
    } else {
      Nothing(m, f, pc, 0, d);
    }
  }

  /** The test of a `for`, if there is one, and its jump out. */
  lemma LoopTestSeg(m: Machine, f: Fn, test: Option<Expr>, end: nat, env: Env, last: seq<Fn>, pc: nat, d: int)
    requires Setting(m, f, env, last) && end < TWO32
    requires var c := TestCode(test, env, pc) + if test.Some? then Enc(JmpF(ToU32(end))) else []; At(f.code, pc, c)
    requires OptLeakFree(test) && OptFlat(test, last) && OptHas(test, env.strs) && OptDepth(test, env.reg) <= d
    ensures var p := pc + |TestCode(test, env, pc)| + (if test.Some? then 5 else 0);
      Scan(m, f, pc, 0, p, 0, d) && (Scan(m, f, 0, 0, end, 0, d) ==> Seg(m, f, pc, 0, p, 0, d))
  {
    hide Enc, At, Setting, ExprCode, Depth, LeakFree, Flat, HasStrs;
    if test.Some? {
      TestSeg(m, f, test.value, end, env, last, pc, d);
    } else {
      Nothing(m, f, pc, 0, d);
    }
  }

  lemma {:induction false} ForSeg(m: Machine, f: Fn, s: Stmt, scope: seq<Sym>, env: Env, last: seq<Fn>, pc: nat, d: int)
    requires s.For?
    requires Setting(m, f, env, last) && At(f.code, pc, StmtCode(s, scope, env, pc)) && Scan(m, f, 0, 0, pc, 0, d)
    requires StmtLeakFree(s) && StmtFlat(s, scope, env.reg, last) && StmtHas(s, scope, env.reg, env.strs)
    requires StmtDepth(s, scope, env.reg) <= d && 0 <= d
    ensures Seg(m, f, pc, 0, pc + |StmtCode(s, scope, env, pc)|, 0, d)
    decreases s, 1
  {
    hide Enc, Seg, At, Setting, Scan, Lands, TestCode, PostCode, StartCode, StartSyms, OptDepth, StartDepth, OptFlat,
      StartFlat, OptHas, StartHas, OptLeakFree, StmtLeakFree, StmtFlat, StmtHas, StmtDepth, StartLeakFree;
    ForFacts(s, scope, env, last);
    var ci := StartCode(s.start, env, pc);
    var top := pc + |ci|;
    var loop := LoopCode(s, StartSyms(s.start, scope), env, top);
    assert StmtCode(s, scope, env, pc) == ci + loop;
    AtSplit(f.code, pc, ci, loop);
    StartSeg(m, f, s.start, env, last, pc, d);
    Arrive(m, f, pc, top, d);
    LoopSeg(m, f, s, StartSyms(s.start, scope), env, last, top, d);
    SegThen(m, f, pc, 0, top, 0, top + |loop|, 0, d);
  }

  /** The code of a `for` from its test on. */
  function LoopCode(s: Stmt, sc: seq<Sym>, env: Env, top: nat): seq<byte>
    requires s.For?
  {
    var ct := TestCode(s.test, env, top);
    var p1 := top + |ct| + (if s.test.Some? then 5 else 0);
    var cb := StmtCode(s.loop, sc, env, p1);
    ForLayout(ct, s.test.Some?, cb, PostCode(s.post, env, p1 + |cb|), top)
  }

  lemma {:induction false} LoopSeg(m: Machine, f: Fn, s: Stmt, sc: seq<Sym>, env: Env, last: seq<Fn>, top: nat, d: int)
    requires s.For? && Setting(m, f, env, last) && At(f.code, top, LoopCode(s, sc, env, top))
    requires OptLeakFree(s.test) && OptLeakFree(s.post) && StmtLeakFree(s.loop)
    requires OptFlat(s.test, last) && OptFlat(s.post, last) && StmtFlat(s.loop, sc, env.reg, last)
    requires OptHas(s.test, env.strs) && OptHas(s.post, env.strs) && StmtHas(s.loop, sc, env.reg, env.strs)
    requires OptDepth(s.test, env.reg) <= d && OptDepth(s.post, env.reg) <= d && StmtDepth(s.loop, sc, env.reg) <= d
    requires Scan(m, f, 0, 0, top, 0, d) && 0 <= d
    ensures Seg(m, f, top, 0, top + |LoopCode(s, sc, env, top)|, 0, d)
    decreases s, 0
  {
    hide Enc, Seg, At, Setting, Scan, Lands, TestCode, PostCode, OptDepth, OptFlat, OptHas, OptLeakFree, StmtLeakFree,
      StmtFlat, StmtHas, StmtDepth, StmtCode;
    var ct := TestCode(s.test, env, top);
    var p1 := top + |ct| + (if s.test.Some? then 5 else 0);
    var cb := StmtCode(s.loop, sc, env, p1);
    var cp := PostCode(s.post, env, p1 + |cb|);
    var p2 := p1 + |cb| + |cp|;
    var end := p2 + 5;
    var j, k := if s.test.Some? then Enc(JmpF(ToU32(end))) else [], Enc(Jmp(ToU32(top)));
    JumpSize(ToU32(end));
    JumpSize(ToU32(top));
    assert LoopCode(s, sc, env, top) == (ct + j) + (cb + (cp + k));
    LoopAts(f.code, top, ct + j, cb, cp, k);
    SettingSize(m, f, env, last);
    LoopTestSeg(m, f, s.test, end, env, last, top, d);
    ScanThen(m, f, 0, 0, top, 0, p1, 0, d);
    StmtSeg(m, f, s.loop, sc, env, last, p1, d);
    PostExprSeg(m, f, s.post, env, last, p1 + |cb|, d);
    JumpSeg(m, f, Jmp(ToU32(top)), p2, 0, d);
    Round(m, f, top, p1, p1 + |cb|, p2, end, d);
  }

  lemma LoopAts(code: seq<byte>, p: nat, a: seq<byte>, b: seq<byte>, c: seq<byte>, e: seq<byte>)
    requires At(code, p, a + (b + (c + e)))
    ensures At(code, p, a) && At(code, p + |a|, b) && At(code, p + |a| + |b|, c) && At(code, p + |a| + |b| + |c|, e)
    ensures p + |a| + |b| + |c| + |e| <= |code|
  {
    AtSplit(code, p, a, b + (c + e));
    AtSplit(code, p + |a|, b, c + e);
    AtSplit(code, p + |a| + |b|, c, e);
  }

  /** The parts of a loop, one after the other, its exit scanned last. */
  lemma Round(m: Machine, f: Fn, a: nat, b: nat, c: nat, e: nat, end: nat, d: int)
    requires Scan(m, f, 0, 0, a, 0, d) && Scan(m, f, 0, 0, b, 0, d)
    requires Scan(m, f, 0, 0, end, 0, d) ==> Seg(m, f, a, 0, b, 0, d)
    requires Seg(m, f, b, 0, c, 0, d) && Seg(m, f, c, 0, e, 0, d) && Seg(m, f, e, 0, end, 0, d)
    ensures Seg(m, f, a, 0, end, 0, d)
  {
    hide Seg, Scan, Lands;
    Arrive(m, f, b, c, d);
    Arrive(m, f, c, e, d);
    Arrive(m, f, e, end, d);
    SegThen(m, f, a, 0, b, 0, c, 0, d);
    SegThen(m, f, a, 0, c, 0, e, 0, d);
    SegThen(m, f, a, 0, e, 0, end, 0, d);
  }

  // ---- runs ----

  /** The line's own frame, alone, at a place that scanning finds with `h`
      operands, and as many there are. */
  ghost predicate Runs(m: Machine, f: Fn, vm: Vm, h: int, d: int) {
    && |vm.frames| == 1 && vm.frames[0].fn == f && vm.frames[0].vbase == 0
    && 0 <= h <= d && |vm.stack| == f.nlocals + h && Scan(m, f, 0, 0, vm.frames[0].pc, h, d)
  }

  /** Code that was scanned to its end, and fits. */
  ghost predicate Measured(m: Machine, f: Fn, d: int) {
    (exists k :: Seg(m, f, 0, 0, |f.code|, k, d)) && 0 <= d && f.nlocals + d <= STACK_SIZE
  }

  lemma StepMeasured(m: Machine, f: Fn, vm: Vm, h: int, d: int) returns (h': int)
    requires Measured(m, f, d) && Runs(m, f, vm, h, d)
    ensures !Excused(Step(m, vm))
    ensures Step(m, vm).Run? ==> Runs(m, f, Step(m, vm).vm, h', d)
  {
    hide Seg, Fetch, Takes, Exec, Scan, Lands;
    var k :| Seg(m, f, 0, 0, |f.code|, k, d);
    var p := vm.frames[0].pc;
    var r := Fetch(f.code, p);
    h' := h;
    if r.Got? {
      FetchInside(f.code, p);
      Here(m, f, p, h, k, d);
      h' := Next(r.i, h);
      InstrMeasured(m, f, Goto(vm, p + r.size), r.i, h, d);
    }
  }

  lemma FetchInside(code: seq<byte>, p: nat)
    requires Fetch(code, p).Got?
    ensures p < |code|
  {
  }

  /** What scanning says about the next instruction. */
  lemma Here(m: Machine, f: Fn, p: nat, h: int, k: int, d: int)
    requires Seg(m, f, 0, 0, |f.code|, k, d) && Scan(m, f, 0, 0, p, h, d) && p < |f.code| && Fetch(f.code, p).Got?
    ensures var r := Fetch(f.code, p);
      && Takes(m, f, r.i, h) && Next(r.i, h) <= d && Scan(m, f, 0, 0, p + r.size, Next(r.i, h), d)
      && (Jumps(r.i) ==> Scan(m, f, 0, 0, Target(r.i), 0, d))
  {
    hide Fetch, Takes;
    ScanOn(m, f, 0, 0, p, h, |f.code|, k, d);
    var r := Fetch(f.code, p);
    var q, g := p + r.size, Next(r.i, h);
    assert Scan(m, f, q, g, q, g, d);
    assert Scan(m, f, p, h, q, g, d) by {
      ScanForward(m, f, q, g, |f.code|, k, d);
    }
    ScanThen(m, f, 0, 0, p, h, q, g, d);
  }

  /** One instruction, its program counter already behind it. */
  lemma InstrMeasured(m: Machine, f: Fn, vm: Vm, i: Instr, h: int, d: int)
    requires |vm.frames| == 1 && vm.frames[0].fn == f && vm.frames[0].vbase == 0 && 0 <= h <= d
      && |vm.stack| == f.nlocals + h && f.nlocals + d <= STACK_SIZE
    requires Takes(m, f, i, h) && Next(i, h) <= d && Scan(m, f, 0, 0, vm.frames[0].pc, Next(i, h), d)
    requires Jumps(i) ==> Scan(m, f, 0, 0, Target(i), 0, d)
    ensures !Excused(Exec(m, vm, i))
    ensures Exec(m, vm, i).Run? ==> Runs(m, f, Exec(m, vm, i).vm, Next(i, h), d)
  {
    hide Scan, Alu, ExecCall;
    if i.CallI? {
      CallMeasured(m, f, vm, i.si, i.count, h);
    }
  }

  lemma CallMeasured(m: Machine, f: Fn, vm: Vm, si: nat, count: nat, h: int)
    requires |vm.frames| == 1 && vm.frames[0].fn == f && count <= h && |vm.stack| == f.nlocals + h
    requires si < |f.strings| ==> AlwaysBuiltin(m, f.strings[si])
    requires f.nlocals + h - count < STACK_SIZE
    ensures !Excused(ExecCall(m, vm, si, count))
    ensures ExecCall(m, vm, si, count).Run? ==>
      var vm' := ExecCall(m, vm, si, count).vm;
      vm'.frames == vm.frames && |vm'.stack| == f.nlocals + h - count + 1
  {
    hide RegNow, Lookup, NewsAt;
  }

  lemma {:induction false} StepsMeasured(m: Machine, f: Fn, vm: Vm, h: int, d: int, n: nat)
    requires Measured(m, f, d) && Runs(m, f, vm, h, d)
    ensures !Excused(Steps(m, vm, n))
    decreases n
  {
    hide Step, Runs, Measured;
    if n > 0 {
      var h' := StepMeasured(m, f, vm, h, d);
      if Step(m, vm).Run? {
        StepsMeasured(m, f, Step(m, vm).vm, h', d, n - 1);
      }
    }
  }

  // ---- lines ----

  lemma {:induction false} LineSeg(m: Machine, f: Fn, stmts: seq<Stmt>, scope: seq<Sym>, env: Env, ss: seq<string>,
      last: seq<Fn>, pc: nat, limit: nat, d: int) returns (k: int)
    requires Setting(m, f, env, last) && Scan(m, f, 0, 0, pc, 0, d) && 0 <= d
    requires At(f.code, pc, LineCode(stmts, scope, env.syms, env.strs, env.reg, pc))
    requires StmtsLeakFree(stmts) && LineFlat(stmts, scope, env.reg, last) && LineDepth(stmts, scope, env.reg) <= d
    requires LineStrs(stmts, scope, env.reg, ss) <= env.strs && LineOk(stmts, scope, env.reg, limit)
    ensures Seg(m, f, pc, 0, pc + |LineCode(stmts, scope, env.syms, env.strs, env.reg, pc)|, k, d)
    decreases |stmts|
  {
    hide Enc, Seg, At, Setting, Scan, Lands, StmtDepth, StmtLeakFree, StmtFlat, StmtHas, SymsAfter, RegAfter, TopCode,
      StmtStrs, HasValue, TopOk;
    if |stmts| == 0 {
      One(m, f, pc, Halt, 0, d);
      return 0;
    }
    var s, sc, reg1 := stmts[0], SymsAfter(stmts[0], scope), RegAfter(stmts[0], env.reg);
    var keep := |stmts| == 1 && HasValue(s, scope, env.reg);
    var c := TopCode(s, keep, scope, env, pc);
    var rest := LineCode(stmts[1..], sc, env.syms, env.strs, reg1, pc + |c|);
    AtSplit(f.code, pc, c, rest);
    LineStrsGrow(stmts[1..], sc, reg1, StmtStrs(s, scope, env.reg, ss));
    TopHas(s, scope, env, ss, limit);
    if keep {
      LastSeg(m, f, s, scope, env, last, pc, d);
      assert rest == Enc(Halt) by { LineEmpty(sc, env.syms, env.strs, reg1, limit, pc + |c|); }
      One(m, f, pc + |c|, Halt, 1, d);
      SegThen(m, f, pc, 0, pc + |c|, 1, pc + |c| + |rest|, 1, d);
      return 1;
    }
    TopPlain(s, scope, env, pc);
    StmtSeg(m, f, s, scope, env, last, pc, d);
    Arrive(m, f, pc, pc + |c|, d);
    var env1 := env.(reg := reg1);
    SameSetting(m, f, env, env1, last);
    k := LineSeg(m, f, stmts[1..], sc, env1, StmtStrs(s, scope, env.reg, ss), last, pc + |c|, limit, d);
    SegThen(m, f, pc, 0, pc + |c|, 0, pc + |c| + |rest|, k, d);
  }

  lemma SameSetting(m: Machine, f: Fn, env: Env, env1: Env, last: seq<Fn>)
    requires Setting(m, f, env, last) && env1 == env.(reg := env1.reg)
    ensures Setting(m, f, env1, last)
  {
    hide IsBuiltin, AlwaysBuiltin;
  }

  lemma TopPlain(s: Stmt, scope: seq<Sym>, env: Env, pc: nat)
    ensures TopCode(s, false, scope, env, pc) == StmtCode(s, scope, env, pc)
  {
  }

  /** The strings of a statement are in the final table. */
  lemma TopHas(s: Stmt, scope: seq<Sym>, env: Env, ss: seq<string>, limit: nat)
    requires StmtStrs(s, scope, env.reg, ss) <= env.strs && TopOk(s, scope, env.reg, limit)
    ensures StmtHas(s, scope, env.reg, env.strs)
  {
    hide StmtOk, FnAccepted;
    StmtStrsGrow(s, scope, env.reg, ss);
    StmtHasMono(s, scope, env.reg, StmtStrs(s, scope, env.reg, ss), env.strs);
  }

  /** The expression a line ends in keeps its value. */
  lemma LastSeg(m: Machine, f: Fn, s: Stmt, scope: seq<Sym>, env: Env, last: seq<Fn>, pc: nat, d: int)
    requires Setting(m, f, env, last) && HasValue(s, scope, env.reg) && At(f.code, pc, TopCode(s, true, scope, env, pc))
    requires StmtLeakFree(s) && StmtFlat(s, scope, env.reg, last) && StmtHas(s, scope, env.reg, env.strs)
    requires StmtDepth(s, scope, env.reg) <= d
    ensures Seg(m, f, pc, 0, pc + |TopCode(s, true, scope, env, pc)|, 1, d) && 1 <= d
  {
    hide Enc, Seg, At, Setting, ExprCode, LeakFree, Flat, HasStrs, Effective, ExprType;
    EffectiveLeakFree(s.e, scope, env.reg);
    ExprSeg(m, f, Effective(s.e, scope, env.reg), env, last, pc, 0, d);
  }

  // ---- builtins that stay ----

  lemma {:induction false} RegsNew(news: seq<Stmt>, old_: seq<Fn>, reg: seq<Fn>)
    requires old_ <= reg && forall i :: 0 <= i < |news| && news[i].FuncDecl? ==> !HasName(old_, news[i].name)
    ensures old_ <= RegsAfter(news, reg)
    decreases |news|
  {
    hide FnOf, HasName;
    if |news| > 0 {
      var s := news[0];
      var reg1 := RegAfter(s, reg);
      if s.FuncDecl? {
        var i := ExactIndex(reg, s.name, 0);
        if i < |old_| { ItsName(old_, i); }
        FnOfName(s, reg);
      }
      assert old_ <= reg1;
      RegsNew(news[1..], old_, reg1);
    }
  }

  lemma FnOfName(s: Stmt, reg: seq<Fn>)
    requires s.FuncDecl?
    ensures FnOf(s, reg).name == s.name
  {
    hide FnCode, FnEnv;
  }

  lemma {:induction false} OldStays(m: Machine, tr: Trace)
    requires OnlyNew(m)
    ensures m.reg <= RegNow(m, tr)
    decreases |tr|
  {
    hide RegsAfter, HasName;
    if |tr| > 0 {
      var before := tr[..|tr| - 1];
      OldStays(m, before);
      var reg := RegNow(m, before);
      var news := m.news(reg, before, tr[|tr| - 1]);
      forall i | 0 <= i < |news| && news[i].FuncDecl? ensures !HasName(m.reg, news[i].name) {
        if HasName(m.reg, news[i].name) { StillNamed(m.reg, reg, news[i].name); }
      }
      RegsNew(news, m.reg, reg);
    }
  }

  lemma StillNamed(a: seq<Fn>, b: seq<Fn>, name: string)
    requires a <= b && HasName(a, name)
    ensures HasName(b, name)
  {
    var i :| 0 <= i < |a| && a[i].name == name;
    assert b[i].name == name;
  }

  lemma StaysBuiltin(m: Machine, name: string)
    requires OnlyNew(m) && IsBuiltin(m.reg, name)
    ensures AlwaysBuiltin(m, name)
  {
    hide RegNow, OnlyNew, Lookup;
    forall tr: Trace ensures var reg := RegNow(m, tr);
      Lookup(reg, name).Some? ==> reg[Lookup(reg, name).value].builtin.Some? {
      OldStays(m, tr);
      LookupStable(m.reg, RegNow(m, tr), name);
    }
  }

  // ---- the main results ----

  /** The line calls builtins only, and its variables and its deepest expression
      fit on the stack. */
  predicate Fits(stmts: seq<Stmt>, reg: seq<Fn>) {
    LineFlat(stmts, [], reg, RegsAfter(stmts, reg)) && |LineSyms(stmts, [])| + LineDepth(stmts, [], reg) <= STACK_SIZE
  }

  /** No run of such a line, if it is leak-free, ever fills a stack or has its code
      freed. */
  lemma LineFits(stmts: seq<Stmt>, w: World, limit: nat, tr: Trace, n: nat)
    requires LineAccepted(stmts, w.m.reg, limit) && limit <= C.MAX_CODE && OnlyNew(w.m)
    requires StmtsLeakFree(stmts) && Fits(stmts, w.m.reg)
    ensures !Excused(RunLine(stmts, w, tr, n))
  {
    hide LineCode, LineOk, LineStrs, LineFlat, LineDepth, StmtsLeakFree, Seg, RegsAfter, Steps, LineSyms, ParamsFit,
      OnlyNew, IsBuiltin, AlwaysBuiltin;
    var f, m := LineFn(stmts, w.m.reg), WorldAfterAll(stmts, w).m;
    var d := STACK_SIZE - f.nlocals;
    WorldMachine(stmts, w);
    NewsSame(w.m, m);
    forall name | IsBuiltin(m.reg, name) ensures AlwaysBuiltin(m, name) {
      StaysBuiltin(m, name);
    }
    var env := Env(LineSyms(stmts, []), f.strings, w.m.reg);
    assert Setting(m, f, env, m.reg);
    WholeAt(f.code);
    Nothing(m, f, 0, 0, d);
    SegScan(m, f, 0, 0, 0, 0, d);
    var k := LineSeg(m, f, stmts, [], env, [], m.reg, 0, limit, d);
    assert Measured(m, f, d);
    StepsMeasured(m, f, Start(f, tr), 0, d, n);
  }

  /** So on such a line the VM does exactly what the documentation says: it halts
      with the documented calls if the line finishes, dies of the same error if
      it dies, and runs on if it runs on. */
  lemma LineMeansExactly(stmts: seq<Stmt>, w: World, limit: nat, tr: Trace, fuel: nat) returns (n: nat)
    requires WorldOk(w) && LineAccepted(stmts, w.m.reg, limit) && limit <= C.MAX_CODE && NewsOk(w.m, limit)
      && Documented(stmts, w) && OnlyNew(w.m) && Fits(stmts, w.m.reg)
    ensures var d, o := LineMeaning(stmts, w, tr, fuel), RunLine(stmts, w, tr, n);
      match d
      case Prints(_, _, tr1) => o.Halted? && o.vm.trace == tr1
      case LineDies(e, tr1) => o == Failed(e, tr1)
      case LineRuns => o.Run? && n >= fuel
  {
    hide WorldOk, LineAccepted, NewsOk, OnlyNew, Fits, StmtsLeakFree, WorldLeakFree, LineMeaning, RunLine;
    n := LineMeansConverse(stmts, w, limit, tr, fuel);
    LineFits(stmts, w, limit, tr, n);
  }
}
