/** The one-pass NOC compiler: it appends bytes, grows its tables as it goes, and
    patches each forward jump once its target is known. Every method is specified
    against `CodeGen`, under the ghost name `final` for the tables the function
    will end up with: whatever is compiled now is right for those. A method
    succeeds if and only if the tree is acceptable, the string table does not
    overflow, and the code stays within `limit` bytes. */
module Compiler {
  import opened Wrappers
  import opened Word
  import opened Ast
  import opened Bytecode
  import opened CodeGen
  import opened CodeGenFacts
  import opened Patching
  import opened Linking

  /** The identity-mapped window bounds every allocation, hence every buffer. */
  const MAX_CODE: nat := 0x4000_0000

  class Compiler {
    var code: seq<byte>
    var syms: seq<Sym>
    var strings: seq<string>
    var reg: seq<Fn>
    var lastExpr: bool
    const inFn: bool
    const limit: nat

    constructor (reg: seq<Fn>, params: seq<Sym>, inFn: bool, limit: nat)
      ensures code == [] && syms == params && strings == [] && this.reg == reg && !lastExpr
      ensures this.inFn == inFn && this.limit == limit
    {
      code, syms, strings := [], params, [];
      this.reg, lastExpr, this.inFn, this.limit := reg, false, inFn, limit;
    }

    predicate Valid()
      reads this
    {
      |strings| <= MAX_STRINGS && |syms| <= MAX_LOCALS && |code| <= limit
    }

    ghost function Now(): Env
      reads this
    {
      Env(syms, strings, reg)
    }

    /** The outcome of compiling something whose code is `part` and which takes
        the string table to `strs`; `fits` is the condition for success. */
    twostate predicate Emits(ok: bool, fits: bool, strs: seq<string>, part: seq<byte>, final: Env)
      reads this
    {
      && syms == old(syms) && reg == old(reg) && lastExpr == old(lastExpr)
      && ok == (fits && |strs| <= MAX_STRINGS && |old(code)| + |part| <= limit)
      && (ok ==>
            && Valid()
            && strings == strs
            && old(strings) <= strings
            && |code| == |old(code)| + |part|
            && old(code) <= code
            && (EnvLe(Now(), final) ==> EnvLe(old(Now()), final) && code == old(code) + part))
    }

    /** The same for a statement, which may also declare variables. */
    twostate predicate EmitsStmt(ok: bool, fits: bool, scope: seq<Sym>, strs: seq<string>, part: seq<byte>, final: Env)
      reads this
    {
      && reg == old(reg)
      && ok == (fits && |strs| <= MAX_STRINGS && |old(code)| + |part| <= limit)
      && (ok ==>
            && Valid()
            && syms == scope
            && strings == strs
            && old(strings) <= strings
            && |code| == |old(code)| + |part|
            && old(code) <= code
            && (EnvLe(Now(), final) ==> EnvLe(old(Now()), final) && code == old(code) + part))
    }

    // ---- emission ----

    method Emit(i: Instr) returns (ok: bool)
      modifies this`code
      ensures ok <==> |old(code)| + |Enc(i)| <= limit
      ensures code == if ok then old(code) + Enc(i) else old(code)
    {
      ok := |code| + |Enc(i)| <= limit;
      if ok {
        code := code + Enc(i);
      }
    }

    method PatchJumpAt(at: nat, target: nat)
      requires at + 5 <= |code|
      modifies this`code
      ensures code == Patched(old(code), at, target)
    {
      code := code[..at + 1] + Enc32(ToU32(target)) + code[at + 5..];
    }

    method AddString(s: string) returns (ok: bool, si: nat)
      modifies this`strings
      ensures ok <==> s in old(strings) || |old(strings)| < MAX_STRINGS
      ensures ok ==> strings == AddStr(old(strings), s) && s in strings && si == IndexOf(strings, s)
      ensures !ok ==> strings == old(strings)
    {
      si := 0;
      while si < |strings|
        invariant si <= |strings|
        invariant forall k :: 0 <= k < si ==> strings[k] != s
      {
        if strings[si] == s {
          IndexIsFirst(strings, s, si);
          return true, si;
        }
        si := si + 1;
      }
      if |strings| >= MAX_STRINGS {
        return false, 0;
      }
      strings := strings + [s];
      IndexIsFirst(strings, s, si);
      return true, si;
    }

    method ResolveVar(x: string) returns (s: int)
      ensures s == Slot(syms, x)
    {
      s := |syms| - 1;
      assert syms[..s + 1] == syms;
      while s >= 0
        invariant -1 <= s < |syms|
        invariant Slot(syms, x) == Slot(syms[..s + 1], x)
      {
        if syms[s].name == x {
          return;
        }
        assert syms[..s + 1][..s] == syms[..s];
        s := s - 1;
      }
    }

    // ---- expressions ----

    method CompileExpr(e: Expr, ghost final: Env) returns (ok: bool)
      requires final.reg == reg && Valid()
      modifies this`code, this`strings
      ensures Emits(ok, ExprOk(e, syms, reg), ExprStrs(e, old(strings)), ExprCode(e, final, |old(code)|), final)
      decreases e, 2
    {
      hide Enc;
      match e
      case Lit(v) => ok := Emit(Push(v));
      case StrLit(t) => ok := CompileStrLit(t, final);
      case Var(x) => ok := CompileLoad(x, final);
      case Call(_, _) => ok := CompileCall(e, final);
      case Bin(_, _, _) => ok := CompileBin(e, final);
      case AndAnd(_, _) => ok := CompileLogic(e, final);
      case OrOr(_, _) => ok := CompileLogic(e, final);
      case Un(_, _) => ok := CompileUn(e, final);
      case PreInc(_, _) => ok := CompilePreInc(e, final);
      case PostInc(_, _) => ok := CompilePostInc(e, final);
      case Assign(_, _, _) => ok := CompileAssign(e, final);
    }

    method CompileStrLit(t: string, ghost final: Env) returns (ok: bool)
      requires final.reg == reg && Valid()
      modifies this`code, this`strings
      ensures Emits(ok, true, AddStr(old(strings), t), Enc(PushStr(ToU32(IndexOf(final.strs, t)))), final)
    {
      hide Enc;
      StrOpSize();
      var si;
      ok, si := AddString(t);
      if ok {
        ok := Emit(PushStr(ToU32(si)));
        if EnvLe(Now(), final) {
          IndexStable(strings, final.strs, t);
        }
      }
    }

    method CompileLoad(x: string, ghost final: Env) returns (ok: bool)
      requires final.reg == reg && Valid()
      modifies this`code
      ensures Emits(ok, Slot(syms, x) >= 0, strings, LoadCode(x, final), final)
    {
      var s := ResolveVar(x);
      if s < 0 {
        return false;
      }
      ok := Emit(Load(ToU32(s)));
      if EnvLe(Now(), final) {
        SlotStable(syms, final.syms, x);
      }
    }

    method EmitStore(x: string, s: nat, ghost final: Env) returns (ok: bool)
      requires s == Slot(syms, x)
      requires final.reg == reg && Valid()
      modifies this`code
      ensures Emits(ok, true, strings, StoreCode(x, final), final)
    {
      ok := Emit(Store(ToU32(s)));
      if EnvLe(Now(), final) {
        SlotStable(syms, final.syms, x);
      }
    }

    /** Store the top of the stack and keep it. */
    method EmitKeep(x: string, s: nat, ghost final: Env) returns (ok: bool)
      requires s == Slot(syms, x)
      requires final.reg == reg && Valid()
      modifies this`code
      ensures Emits(ok, true, strings, Enc(Dup) + StoreCode(x, final), final)
    {
      hide Enc, Slot, SlotOperand;
      ok := Emit(Dup);
      if !ok {
        return;
      }
      ok := EmitStore(x, s, final);
    }

    method EmitOpKeep(op: AluOp, x: string, s: nat, ghost final: Env) returns (ok: bool)
      requires s == Slot(syms, x)
      requires final.reg == reg && Valid()
      modifies this`code
      ensures Emits(ok, true, strings, Enc(Arith(op)) + (Enc(Dup) + StoreCode(x, final)), final)
    {
      hide Enc, Slot, StoreCode, EnvLe;
      ok := Emit(Arith(op));
      if !ok {
        return;
      }
      ok := EmitKeep(x, s, final);
    }

    method EmitStep(up: bool, ghost final: Env) returns (ok: bool)
      requires final.reg == reg && Valid()
      modifies this`code
      ensures Emits(ok, true, strings, IncCode(up) + ArithOf(Add), final)
    {
      hide Enc;
      ok := Emit(Push(if up then 1 else TWO64 - 1));
      if !ok {
        return;
      }
      ok := Emit(Arith(Add));
    }

    method CompileCall(e: Expr, ghost final: Env) returns (ok: bool)
      requires e.Call?
      requires final.reg == reg && Valid()
      modifies this`code, this`strings
      ensures Emits(ok, ExprOk(e, syms, reg), ExprStrs(e, old(strings)), ExprCode(e, final, |old(code)|), final)
      decreases e, 1
    {
      hide Enc, ArityOk, PadCode, PadFrom, ArgsStrs, Slot, EnvLe, SymsLe, ArgsOk, ArgsCode, IndexOf;
      var Call(f, args) := e;
      var at := Lookup(reg, f);
      if at.None? {
        return false;
      }
      var callee := reg[at.value];
      var fits := FitsArity(callee, |args|);
      if !fits {
        return false;
      }
      ok := CompileArgs(args, final);
      if !ok {
        return;
      }
      ok := FinishCall(callee, f, |args|, final);
    }

    /** The defaults the caller left out, and the call itself. */
    method FinishCall(callee: Fn, f: string, n: nat, ghost final: Env) returns (ok: bool)
      requires final.reg == reg && Valid()
      modifies this`code, this`strings
      ensures var pads := if callee.variadic then [] else PadFrom(callee, n);
        Emits(ok, true, AddStr(old(strings), f),
              PadCode(pads) + Enc(CallI(ToU32(IndexOf(final.strs, f)), ToU32(n + |pads|))), final)
    {
      hide Enc, PadCode, PadFrom, EnvLe, SymsLe, Slot, IndexOf;
      ok := EmitPads(callee, n);
      if !ok {
        return;
      }
      ok := EmitCall(f, n + |if callee.variadic then [] else PadFrom(callee, n)|, final);
    }

    method FitsArity(f: Fn, n: nat) returns (ok: bool)
      ensures ok == ArityOk(f, n)
    {
      if f.variadic {
        return n >= f.nargs;
      }
      if n > f.nargs {
        return false;
      }
      for k := n to f.nargs
        invariant forall i :: n <= i < k ==> DefaultOf(f, i).Some?
      {
        if DefaultOf(f, k).None? {
          return false;
        }
      }
      return true;
    }

    method CompileArgs(args: seq<Expr>, ghost final: Env) returns (ok: bool)
      requires final.reg == reg && Valid()
      modifies this`code, this`strings
      ensures Emits(ok, ArgsOk(args, syms, reg), ArgsStrs(args, old(strings)), ArgsCode(args, final, |old(code)|),
        final)
      decreases args, 0
    {
      hide Enc, ExprOk, ExprStrs, ExprCode;
      ghost var pc := |code|;
      ghost var all := ArgsCode(args, final, pc);
      var i := 0;
      while i < |args|
        invariant i <= |args| && syms == old(syms) && reg == old(reg) && lastExpr == old(lastExpr)
        invariant old(strings) <= strings && old(code) <= code && Valid()
        invariant ArgsOk(args, syms, reg) == ArgsOk(args[i..], syms, reg)
        invariant ArgsStrs(args, old(strings)) == ArgsStrs(args[i..], strings)
        invariant pc + |all| == |code| + |ArgsCode(args[i..], final, |code|)|
        invariant EnvLe(Now(), final) ==> EnvLe(old(Now()), final)
        invariant EnvLe(Now(), final) ==> old(code) + all == code + ArgsCode(args[i..], final, |code|)
      {
        ghost var c, rest := code, ArgsCode(args[i..][1..], final, |code| + |ExprCode(args[i], final, |code|)|);
        ArgsStrsGrow(args[i..][1..], ExprStrs(args[i], strings));
        ok := CompileExpr(args[i], final);
        if !ok {
          return;
        }
        assert args[i..][1..] == args[i + 1..];
        assert c + (ExprCode(args[i], final, |c|) + rest) == (c + ExprCode(args[i], final, |c|)) + rest;
        i := i + 1;
      }
      ok := true;
    }

    /** Push the defaults of the parameters the caller left out. */
    method EmitPads(f: Fn, n: nat) returns (ok: bool)
      requires Valid()
      modifies this`code
      ensures var part := PadCode(if f.variadic then [] else PadFrom(f, n));
        && (ok <==> |old(code)| + |part| <= limit)
        && (ok ==> code == old(code) + part)
    {
      hide Enc;
      ok := true;
      if f.variadic {
        return;
      }
      var k := n;
      while k < f.nargs
        invariant old(code) + PadCode(PadFrom(f, n)) == code + PadCode(PadFrom(f, k))
        invariant |code| <= limit
      {
        ghost var c := code;
        var v := if DefaultOf(f, k).Some? then DefaultOf(f, k).value else 0;
        PadStep(f, k);
        ok := Emit(Push(v));
        if !ok {
          return;
        }
        assert c + (Enc(Push(v)) + PadCode(PadFrom(f, k + 1))) == (c + Enc(Push(v))) + PadCode(PadFrom(f, k + 1));
        k := k + 1;
      }
    }

    method EmitCall(f: string, count: nat, ghost final: Env) returns (ok: bool)
      requires final.reg == reg && Valid()
      modifies this`code, this`strings
      ensures Emits(ok, true, AddStr(old(strings), f), Enc(CallI(ToU32(IndexOf(final.strs, f)), ToU32(count))), final)
    {
      hide Enc;
      StrOpSize();
      var si;
      ok, si := AddString(f);
      if ok {
        ok := Emit(CallI(ToU32(si), ToU32(count)));
        if EnvLe(Now(), final) {
          IndexStable(strings, final.strs, f);
        }
      }
    }

    method CompileBin(e: Expr, ghost final: Env) returns (ok: bool)
      requires e.Bin?
      requires final.reg == reg && Valid()
      modifies this`code, this`strings
      ensures Emits(ok, ExprOk(e, syms, reg), ExprStrs(e, old(strings)), ExprCode(e, final, |old(code)|), final)
      decreases e, 1
    {
      hide Enc, EnvLe, SymsLe, Slot, ExprOk, ExprStrs, ExprCode;
      BinShape(e, syms, strings, final, |code|);
      ExprStrsGrow(e.b, ExprStrs(e.a, strings));
      ok := CompileExpr(e.a, final);
      if !ok {
        return;
      }
      ok := CompileExpr(e.b, final);
      if !ok {
        return;
      }
      ok := Emit(Arith(e.op));
    }

    /** A condition and the jump that tests it, still without a target. */
    method CompileGuard(c: Expr, kind: JumpKind, ghost final: Env) returns (ok: bool, at: nat)
      requires final.reg == reg && Valid()
      modifies this`code, this`strings
      ensures Emits(ok, ExprOk(c, syms, reg), ExprStrs(c, old(strings)),
                    ExprCode(c, final, |old(code)|) + Enc(JumpTo(kind, 0)), final)
      ensures ok ==> at == |old(code)| + |ExprCode(c, final, |old(code)|)| && |code| == at + 5
      decreases c, 3
    {
      hide Enc, EnvLe, Slot, SymsLe, ExprOk, ExprStrs, ExprCode, JumpTo;
      JumpShape(kind, 0);
      at := 0;
      ok := CompileExpr(c, final);
      if !ok {
        return;
      }
      at := |code|;
      ok := Emit(JumpTo(kind, 0));
    }

    /** Both operands, each followed by a jump still without a target. */
    method CompileOperands(e: Expr, kind: JumpKind, ghost final: Env) returns (ok: bool, j1: nat, j2: nat)
      requires e.AndAnd? || e.OrOr?
      requires final.reg == reg && Valid()
      modifies this`code, this`strings
      ensures var ca := ExprCode(e.a, final, |old(code)|);
        var cb := ExprCode(e.b, final, |old(code)| + |ca| + 5);
        && Emits(ok, ExprOk(e, syms, reg), ExprStrs(e, old(strings)),
                 (ca + Enc(JumpTo(kind, 0))) + (cb + Enc(JumpTo(kind, 0))), final)
        && (ok ==> j1 == |old(code)| + |ca| && j2 == j1 + 5 + |cb|)
      decreases e, 0
    {
      hide Enc, JumpTo, EnvLe;
      JumpShape(kind, 0);
      j2 := 0;
      ExprStrsGrow(e.b, ExprStrs(e.a, strings));
      ok, j1 := CompileGuard(e.a, kind, final);
      if !ok {
        return;
      }
      ok, j2 := CompileGuard(e.b, kind, final);
    }

    method EmitBools(isAnd: bool, ghost final: Env) returns (ok: bool)
      requires final.reg == reg && Valid()
      modifies this`code
      ensures Emits(ok, true, strings, LogicTail(isAnd, 0), final)
    {
      hide Enc, JumpTo, EnvLe, SymsLe, Slot;
      ghost var c, a, b := code, Enc(Push(if isAnd then 0 else 1)), Enc(JumpTo(Always, 0));
      ghost var d := Enc(Push(if isAnd then 1 else 0));
      Assoc(c, a, b);
      Assoc(c, a + b, d);
      Assoc(a, b, d);
      ok := Emit(Push(if isAnd then 0 else 1));
      if !ok {
        return;
      }
      ok := Emit(JumpTo(Always, 0));
      if !ok {
        return;
      }
      ok := Emit(Push(if isAnd then 1 else 0));
    }

    method CompileLogic(e: Expr, ghost final: Env) returns (ok: bool)
      requires e.AndAnd? || e.OrOr?
      requires final.reg == reg && Valid()
      modifies this`code, this`strings
      ensures Emits(ok, ExprOk(e, syms, reg), ExprStrs(e, old(strings)), ExprCode(e, final, |old(code)|), final)
      decreases e, 1
    {
      hide Enc, Slot, SymsLe, EnvLe, JumpTo, LogicTail, LogicCode, Patched;
      var isAnd := e.AndAnd?;
      var kind := if isAnd then IfFalse else IfTrue;
      ghost var pc := |code|;
      ghost var ca := ExprCode(e.a, final, pc);
      ghost var cb := ExprCode(e.b, final, pc + |ca| + 5);
      TailSize(isAnd, 0);
      LogicPatched(code, ca, cb, isAnd);
      var j1, j2;
      ok, j1, j2 := CompileOperands(e, kind, final);
      if !ok {
        return;
      }
      var short := |code|;
      ok := EmitBools(isAnd, final);
      if !ok {
        return;
      }
      PatchLogic(j1, j2, short, pc);
    }

    method PatchLogic(j1: nat, j2: nat, short: nat, ghost keep: nat)
      requires keep <= j1 && j1 + 5 <= j2 && j2 + 5 == short && |code| == short + 23
      modifies this`code
      ensures code == Patched(Patched(Patched(old(code), j1, short), j2, short), short + 9, short + 14)
      ensures |code| == |old(code)| && code[..keep] == old(code)[..keep]
    {
      hide Patched;
      PatchedFrame(code, j1, short, keep);
      PatchedFrame(Patched(code, j1, short), j2, short, keep);
      PatchedFrame(Patched(Patched(code, j1, short), j2, short), short + 9, short + 14, keep);
      PatchJumpAt(j1, short);
      PatchJumpAt(j2, short);
      PatchJumpAt(short + 9, short + 14);
    }

    method CompileUn(e: Expr, ghost final: Env) returns (ok: bool)
      requires e.Un?
      requires final.reg == reg && Valid()
      modifies this`code, this`strings
      ensures Emits(ok, ExprOk(e, syms, reg), ExprStrs(e, old(strings)), ExprCode(e, final, |old(code)|), final)
      decreases e, 1
    {
      hide Enc, EnvLe, SymsLe, Slot, ExprOk, ExprStrs, ExprCode, UnCode;
      UnShape(e, syms, strings, final, |code|);
      ok := CompileExpr(e.a, final);
      if ok {
        ok := EmitUn(e.uop);
      }
    }

    method EmitUn(op: UnOp) returns (ok: bool)
      modifies this`code
      ensures code == old(code) + if ok then UnCode(op) else []
      ensures ok <==> |old(code)| + |UnCode(op)| <= limit
    {
      hide Enc;
      match op
      case Neg => ok := Emit(NegI);
      case Not => ok := Emit(NotI);
      case BNot => ok := Emit(BNotI);
    }

    /** The operand is compiled once as any expression, and then loaded again. */
    method CompilePreInc(e: Expr, ghost final: Env) returns (ok: bool)
      requires e.PreInc?
      requires final.reg == reg && Valid()
      modifies this`code, this`strings
      ensures Emits(ok, ExprOk(e, syms, reg), ExprStrs(e, old(strings)), ExprCode(e, final, |old(code)|), final)
      decreases e, 1
    {
      hide Enc, EnvLe, SymsLe, Slot;
      ok := CompileExpr(e.a, final);
      if !ok || !e.a.Var? {
        return false;
      }
      var s := ResolveVar(e.a.name);
      if s < 0 {
        return false;
      }
      ok := CompileBump(e.a.name, s, e.up, final);
    }

    method CompileBump(x: string, s: nat, up: bool, ghost final: Env) returns (ok: bool)
      requires s == Slot(syms, x)
      requires final.reg == reg && Valid()
      modifies this`code
      ensures Emits(ok, true, strings,
                LoadCode(x, final) + (IncCode(up) + (ArithOf(Add) + (Enc(Dup) + StoreCode(x, final)))), final)
    {
      hide Enc, Slot, SlotOperand;
      ok := CompileLoad(x, final);
      if !ok {
        return;
      }
      ok := EmitStep(up, final);
      if !ok {
        return;
      }
      ok := EmitKeep(x, s, final);
    }

    method CompilePostInc(e: Expr, ghost final: Env) returns (ok: bool)
      requires e.PostInc?
      requires final.reg == reg && Valid()
      modifies this`code, this`strings
      ensures Emits(ok, ExprOk(e, syms, reg), ExprStrs(e, old(strings)), ExprCode(e, final, |old(code)|), final)
      decreases e, 1
    {
      hide Enc, EnvLe, SymsLe, Slot, SlotOperand, LoadCode, StoreCode;
      var s := ResolveVar(e.name);
      if s < 0 {
        return false;
      }
      ok := CompileLoad(e.name, final);
      if !ok {
        return;
      }
      ok := Emit(Dup);
      if !ok {
        return;
      }
      ok := EmitStep(e.up, final);
      if !ok {
        return;
      }
      ok := EmitStore(e.name, s, final);
    }

    method CompileAssign(e: Expr, ghost final: Env) returns (ok: bool)
      requires e.Assign?
      requires final.reg == reg && Valid()
      modifies this`code, this`strings
      ensures Emits(ok, ExprOk(e, syms, reg), ExprStrs(e, old(strings)), ExprCode(e, final, |old(code)|), final)
      decreases e, 1
    {
      hide Enc, Slot;
      var s := ResolveVar(e.name);
      if s < 0 {
        return false;
      }
      if e.aop.Compound? {
        ok := CompileCompound(e, s, final);
        return;
      }
      ok := CompileExpr(e.a, final);
      if !ok {
        return;
      }
      ok := EmitKeep(e.name, s, final);
    }

    method CompileCompound(e: Expr, s: nat, ghost final: Env) returns (ok: bool)
      requires e.Assign? && e.aop.Compound? && s == Slot(syms, e.name)
      requires final.reg == reg && Valid()
      modifies this`code, this`strings
      ensures Emits(ok, ExprOk(e, syms, reg), ExprStrs(e, old(strings)), ExprCode(e, final, |old(code)|), final)
      decreases e, 0
    {
      hide Enc, Slot, LoadCode, StoreCode, EnvLe, SymsLe, ExprOk, ExprStrs, ExprCode;
      CompoundShape(e, syms, strings, final, |code|);
      if !CompoundOk(e.aop.op) {
        return false;
      }
      ok := CompileLoad(e.name, final);
      if !ok {
        return;
      }
      ok := CompileExpr(e.a, final);
      if !ok {
        return;
      }
      ok := EmitOpKeep(e.aop.op, e.name, s, final);
    }

    // ---- statements ----

    /** Declare a variable: its name must be new and a slot must be left. */
    method AddVar(x: string, ty: nat) returns (ok: bool)
      modifies this`syms
      ensures ok == DeclOk(x, old(syms))
      ensures syms == if ok then old(syms) + [Sym(x, ty)] else old(syms)
    {
      var s := ResolveVar(x);
      ok := s < 0 && |syms| < MAX_LOCALS;
      if ok {
        syms := syms + [Sym(x, ty)];
      }
    }

    /** With `last`, the final statement of a REPL line. */
    method CompileStmt(s: Stmt, last: bool, ghost final: Env) returns (ok: bool)
      requires final.reg == reg && Valid()
      modifies this`code, this`strings, this`syms, this`lastExpr
      ensures var keep := last && !inFn && HasValue(s, old(syms), reg);
        && EmitsStmt(ok, StmtOk(s, old(syms), reg, inFn), SymsAfter(s, old(syms)),
                     StmtStrs(s, old(syms), reg, old(strings)), TopCode(s, keep, old(syms), final, |old(code)|), final)
        && lastExpr == (old(lastExpr) || (ok && keep))
      decreases s, 3
    {
      hide Enc, EnvLe, Slot, SymsLe;
      match s
      case ExprStmt(e) => ok := CompileExprStmt(e, last, final);
      case VarDecl(x, ty, init) => ok := CompileDecl(x, ty, init, final);
      case Block(body) => ok := CompileBlock(body, final);
      case If(_, _, els) =>
        if els.None? {
          ok := CompileIf(s, final);
        } else {
          ok := CompileIfElse(s, final);
        }
      case While(_, _) => ok := CompileWhile(s, final);
      case For(_, _, _, _) => ok := CompileFor(s, final);
      case Return(v) => ok := CompileReturn(v, final);
      case FuncDecl(_, _, _, _) => ok := false;
    }

    method CompileExprStmt(e: Expr, last: bool, ghost final: Env) returns (ok: bool)
      requires final.reg == reg && Valid()
      modifies this`code, this`strings, this`lastExpr
      ensures var s := ExprStmt(e);
        var keep := last && !inFn && HasValue(s, syms, reg);
        && EmitsStmt(ok, StmtOk(s, syms, reg, inFn), old(syms),
                     StmtStrs(s, syms, reg, old(strings)), TopCode(s, keep, syms, final, |old(code)|), final)
        && lastExpr == (old(lastExpr) || (ok && keep))
    {
      hide Enc, EnvLe, Slot, SymsLe, ExprOk, ExprStrs, ExprCode;
      var f := Effective(e, syms, reg);
      ok := CompileExpr(f, final);
      if !ok {
        return;
      }
      if last && !inFn && ExprType(f, syms, reg) != VOID {
        lastExpr := true;
      } else {
        ok := Emit(Pop);
      }
    }

    method CompileDecl(x: string, ty: nat, init: Option<Expr>, ghost final: Env) returns (ok: bool)
      requires final.reg == reg && Valid()
      modifies this`code, this`strings, this`syms
      ensures var scope := old(syms) + [Sym(x, ty)];
        EmitsStmt(ok, DeclOk(x, old(syms)) && OptOk(init, scope, reg), scope,
                  OptStrs(init, old(strings)), DeclCode(x, init, final, |old(code)|), final)
    {
      hide Enc, ExprOk, ExprStrs, ExprCode, LoadCode, StoreCode, SlotOperand, EnvLe, SymsLe, Slot;
      ok := AddVar(x, ty);
      if !ok {
        return;
      }
      DeclEnv(old(syms), Sym(x, ty), strings, reg, final);
      if init.Some? {
        ok := CompileExpr(init.value, final);
        if !ok {
          return;
        }
        ok := EmitStore(x, |syms| - 1, final);
      }
    }

    method CompileBlock(body: seq<Stmt>, ghost final: Env) returns (ok: bool)
      requires final.reg == reg && Valid()
      modifies this`code, this`strings, this`syms, this`lastExpr
      ensures EmitsStmt(ok, StmtsOk(body, old(syms), reg, inFn), SymsAfterAll(body, old(syms)),
                        StmtsStrs(body, old(syms), reg, old(strings)), StmtsCode(body, old(syms), final, |old(code)|),
                          final)
      ensures lastExpr == old(lastExpr)
      decreases body, 0
    {
      hide Enc, EnvLe, Slot, SymsLe, StmtOk, SymsAfter, StmtStrs, StmtCode;
      ghost var pc := |code|;
      ghost var all := StmtsCode(body, syms, final, pc);
      var i := 0;
      while i < |body|
        invariant i <= |body| && reg == old(reg) && lastExpr == old(lastExpr)
        invariant old(strings) <= strings && old(code) <= code && Valid()
        invariant StmtsOk(body, old(syms), reg, inFn) == StmtsOk(body[i..], syms, reg, inFn)
        invariant SymsAfterAll(body, old(syms)) == SymsAfterAll(body[i..], syms)
        invariant StmtsStrs(body, old(syms), reg, old(strings)) == StmtsStrs(body[i..], syms, reg, strings)
        invariant pc + |all| == |code| + |StmtsCode(body[i..], syms, final, |code|)|
        invariant EnvLe(Now(), final) ==> EnvLe(old(Now()), final)
        invariant EnvLe(Now(), final) ==> old(code) + all == code + StmtsCode(body[i..], syms, final, |code|)
      {
        ghost var c, sc, part := code, syms, StmtCode(body[i], syms, final, |code|);
        ghost var rest := StmtsCode(body[i..][1..], SymsAfter(body[i], sc), final, |c| + |part|);
        StmtsStrsGrow(body[i..][1..], SymsAfter(body[i], syms), reg, StmtStrs(body[i], syms, reg, strings));
        ok := CompileStmt(body[i], false, final);
        if !ok {
          return;
        }
        assert body[i..][1..] == body[i + 1..];
        assert c + (part + rest) == (c + part) + rest;
        i := i + 1;
      }
      ok := true;
    }

    /** A statement inside another one. */
    method CompileInner(s: Stmt, ghost final: Env) returns (ok: bool)
      requires final.reg == reg && Valid()
      modifies this`code, this`strings, this`syms, this`lastExpr
      ensures EmitsStmt(ok, StmtOk(s, old(syms), reg, inFn), SymsAfter(s, old(syms)),
                        StmtStrs(s, old(syms), reg, old(strings)), StmtCode(s, old(syms), final, |old(code)|), final)
      ensures lastExpr == old(lastExpr)
      decreases s, 4
    {
      hide Enc, EnvLe, Slot, SymsLe, StmtOk, SymsAfter, StmtStrs, StmtCode, HasValue;
      ok := CompileStmt(s, false, final);
    }

    /** A condition, the jump taken when it is false, and what it guards. */
    method CompileGuarded(c: Expr, s: Stmt, ghost final: Env) returns (ok: bool, je: nat)
      requires final.reg == reg && Valid()
      modifies this`code, this`strings, this`syms, this`lastExpr
      ensures var cc := ExprCode(c, final, |old(code)|);
        && EmitsStmt(ok, ExprOk(c, old(syms), reg) && StmtOk(s, old(syms), reg, inFn), SymsAfter(s, old(syms)),
             StmtStrs(s, old(syms), reg, ExprStrs(c, old(strings))),
             (cc + Enc(JumpTo(IfFalse, 0))) + StmtCode(s, old(syms), final, |old(code)| + |cc| + 5), final)
        && (ok ==> je == |old(code)| + |cc|)
      ensures lastExpr == old(lastExpr)
      decreases s, 5
    {
      hide Enc, EnvLe, Slot, SymsLe, ExprOk, ExprStrs, ExprCode, JumpTo, StmtOk, SymsAfter, StmtStrs, StmtCode;
      JumpShape(IfFalse, 0);
      StmtStrsGrow(s, syms, reg, ExprStrs(c, strings));
      ok, je := CompileGuard(c, IfFalse, final);
      if !ok {
        return;
      }
      ok := CompileInner(s, final);
    }

    method CompileIf(s: Stmt, ghost final: Env) returns (ok: bool)
      requires s.If? && s.els.None?
      requires final.reg == reg && Valid()
      modifies this`code, this`strings, this`syms, this`lastExpr
      ensures EmitsStmt(ok, StmtOk(s, old(syms), reg, inFn), SymsAfter(s, old(syms)),
                        StmtStrs(s, old(syms), reg, old(strings)), StmtCode(s, old(syms), final, |old(code)|), final)
      ensures lastExpr == old(lastExpr)
      decreases s, 2
    {
      hide Enc, EnvLe, Slot, SymsLe, ExprOk, ExprStrs, ExprCode, JumpTo, Patched, IfLayout;
      ghost var pc := |code|;
      ghost var cc := ExprCode(s.cond, final, pc);
      ghost var ct := StmtCode(s.thn, syms, final, pc + |cc| + 5);
      IfPatched(code, cc, ct);
      var je;
      ok, je := CompileGuarded(s.cond, s.thn, final);
      if !ok {
        return;
      }
      PatchedFrame(code, je, |code|, pc);
      PatchJumpAt(je, |code|);
    }

    method CompileIfElse(s: Stmt, ghost final: Env) returns (ok: bool)
      requires s.If? && s.els.Some?
      requires final.reg == reg && Valid()
      modifies this`code, this`strings, this`syms, this`lastExpr
      ensures EmitsStmt(ok, StmtOk(s, old(syms), reg, inFn), SymsAfter(s, old(syms)),
                        StmtStrs(s, old(syms), reg, old(strings)), StmtCode(s, old(syms), final, |old(code)|), final)
      ensures lastExpr == old(lastExpr)
      decreases s, 2
    {
      hide Enc, EnvLe, Slot, SymsLe, ExprOk, ExprStrs, ExprCode, JumpTo, Patched, IfElseLayout,
        StmtOk, SymsAfter, StmtStrs, StmtCode;
      IfElseShape(s, syms, strings, final, |code|, inFn);
      ghost var scope, pc := syms, |code|;
      ghost var cc := ExprCode(s.cond, final, pc);
      ghost var ct := StmtCode(s.thn, scope, final, pc + |cc| + 5);
      ghost var cf := StmtCode(s.els.value, SymsAfter(s.thn, scope), final, pc + |cc| + |ct| + 10);
      StmtStrsGrow(s.els.value, SymsAfter(s.thn, scope), reg, StmtStrs(s.thn, scope, reg, ExprStrs(s.cond, strings)));
      ElsePatched(code, cc, ct, cf);
      var je;
      ok, je := CompileGuarded(s.cond, s.thn, final);
      if !ok {
        return;
      }
      var jd := |code|;
      ok := CompileElse(s.els.value, final);
      if !ok {
        return;
      }
      PatchElse(je, jd, pc);
    }

    method PatchElse(je: nat, jd: nat, ghost keep: nat)
      requires keep <= je && je + 5 <= jd && jd + 5 <= |code|
      modifies this`code
      ensures code == Patched(Patched(old(code), je, jd + 5), jd, |old(code)|)
      ensures |code| == |old(code)| && code[..keep] == old(code)[..keep]
    {
      hide Patched;
      PatchedFrame(code, je, jd + 5, keep);
      PatchedFrame(Patched(code, je, jd + 5), jd, |code|, keep);
      PatchJumpAt(je, jd + 5);
      PatchJumpAt(jd, |code|);
    }

    /** The jump over the else branch, still without a target, and the branch. */
    method CompileElse(s: Stmt, ghost final: Env) returns (ok: bool)
      requires final.reg == reg && Valid()
      modifies this`code, this`strings, this`syms, this`lastExpr
      ensures EmitsStmt(ok, StmtOk(s, old(syms), reg, inFn), SymsAfter(s, old(syms)),
        StmtStrs(s, old(syms), reg, old(strings)),
                        Enc(JumpTo(Always, 0)) + StmtCode(s, old(syms), final, |old(code)| + 5), final)
      ensures lastExpr == old(lastExpr)
      decreases s, 5
    {
      hide Enc, EnvLe, Slot, SymsLe, StmtOk, SymsAfter, StmtStrs, StmtCode, JumpTo;
      ghost var c, pc := code, |code|;
      JumpShape(Always, 0);
      StmtStrsGrow(s, syms, reg, strings);
      Assoc(c, Enc(JumpTo(Always, 0)), StmtCode(s, syms, final, pc + 5));
      ok := Emit(JumpTo(Always, 0));
      if !ok {
        return;
      }
      ok := CompileInner(s, final);
    }

    method CompileWhile(s: Stmt, ghost final: Env) returns (ok: bool)
      requires s.While?
      requires final.reg == reg && Valid()
      modifies this`code, this`strings, this`syms, this`lastExpr
      ensures EmitsStmt(ok, StmtOk(s, old(syms), reg, inFn), SymsAfter(s, old(syms)),
                        StmtStrs(s, old(syms), reg, old(strings)), StmtCode(s, old(syms), final, |old(code)|), final)
      ensures lastExpr == old(lastExpr)
      decreases s, 2
    {
      hide Enc, EnvLe, Slot, SymsLe, ExprOk, ExprStrs, ExprCode, JumpTo, Patched, WhileLayout, StmtOk, SymsAfter,
        StmtStrs, StmtCode;
      WhileShape(s, syms, strings, final, |code|, inFn);
      var top := |code|;
      ghost var cc := ExprCode(s.cond, final, top);
      ghost var cb := StmtCode(s.loop, syms, final, top + |cc| + 5);
      LoopPatched(code, cc, cb);
      var je;
      ok, je := CompileGuarded(s.cond, s.loop, final);
      if !ok {
        return;
      }
      ok := Emit(JumpTo(Always, top));
      if !ok {
        return;
      }
      PatchedFrame(code, je, |code|, top);
      PatchJumpAt(je, |code|);
    }

    method CompileStart(st: ForInit, ghost final: Env) returns (ok: bool)
      requires final.reg == reg && Valid()
      modifies this`code, this`strings, this`syms
      ensures EmitsStmt(ok, StartOk(st, old(syms), reg), StartSyms(st, old(syms)),
                        StartStrs(st, old(strings)), StartCode(st, final, |old(code)|), final)
    {
      hide Enc, EnvLe, Slot, SymsLe, ExprOk, ExprStrs, ExprCode;
      match st
      case NoInit => ok := true;
      case DeclInit(x, ty, init) => ok := CompileDecl(x, ty, init, final);
      case ExprInit(e) => ok := CompileDrop(e, final);
    }

    /** An expression for its effect. */
    method CompileDrop(e: Expr, ghost final: Env) returns (ok: bool)
      requires final.reg == reg && Valid()
      modifies this`code, this`strings
      ensures Emits(ok, ExprOk(e, syms, reg), ExprStrs(e, old(strings)), ExprCode(e, final, |old(code)|) + Enc(Pop),
        final)
    {
      hide Enc, EnvLe, Slot, SymsLe, ExprOk, ExprStrs, ExprCode;
      ok := CompileExpr(e, final);
      if !ok {
        return;
      }
      ok := Emit(Pop);
    }

    method CompileReturn(v: Option<Expr>, ghost final: Env) returns (ok: bool)
      requires final.reg == reg && Valid()
      modifies this`code, this`strings
      ensures var s := Return(v);
        Emits(ok, StmtOk(s, syms, reg, inFn), StmtStrs(s, syms, reg, old(strings)),
          StmtCode(s, syms, final, |old(code)|), final)
    {
      hide Enc, EnvLe, Slot, SymsLe, ExprOk, ExprStrs, ExprCode;
      if !inFn {
        return false;
      }
      if v.Some? {
        ok := CompileExpr(v.value, final);
      } else {
        ok := Emit(Push(0));
      }
      if !ok {
        return;
      }
      ok := Emit(Ret);
    }

    method CompileTest(test: Option<Expr>, ghost final: Env) returns (ok: bool, je: nat)
      requires final.reg == reg && Valid()
      modifies this`code, this`strings
      ensures Emits(ok, OptOk(test, syms, reg), OptStrs(test, old(strings)), TestRaw(test, final, |old(code)|), final)
      ensures ok && test.Some? ==> je + 5 == |code| && je >= |old(code)|
    {
      hide Enc, EnvLe, Slot, SymsLe, ExprOk, ExprStrs, ExprCode, JumpTo;
      if test.None? {
        return true, 0;
      }
      ok, je := CompileGuard(test.value, IfFalse, final);
    }

    method CompilePost(post: Option<Expr>, top: nat, ghost final: Env) returns (ok: bool)
      requires final.reg == reg && Valid()
      modifies this`code, this`strings
      ensures Emits(ok, OptOk(post, syms, reg), OptStrs(post, old(strings)),
                    PostCode(post, final, |old(code)|) + Enc(JumpTo(Always, top)), final)
    {
      hide Enc, EnvLe, Slot, SymsLe, ExprOk, ExprStrs, ExprCode, JumpTo;
      if post.Some? {
        ok := CompileDrop(post.value, final);
        if !ok {
          return;
        }
      }
      ok := Emit(JumpTo(Always, top));
    }

    /** Everything of a loop but the start: the test, the body, the post
        expression, the jump back, and the patched exit. */
    method CompileForLoop(s: Stmt, ghost final: Env) returns (ok: bool)
      requires s.For?
      requires final.reg == reg && Valid()
      modifies this`code, this`strings, this`syms, this`lastExpr
      ensures EmitsStmt(ok, LoopOk(s, old(syms), reg, inFn), SymsAfter(s.loop, old(syms)),
        LoopStrs(s, old(syms), reg, old(strings)),
                        LoopCode(s, old(syms), final, |old(code)|), final)
      ensures lastExpr == old(lastExpr)
      decreases s, 1
    {
      hide Enc, EnvLe, Slot, SymsLe, ExprOk, ExprStrs, ExprCode, JumpTo, Patched, StmtOk, SymsAfter, StmtStrs, StmtCode,
        OptOk, OptStrs, PostCode, TestCode;
      ghost var scope, sc := syms, SymsAfter(s.loop, syms);
      ghost var s1 := OptStrs(s.test, strings);
      ghost var s2 := StmtStrs(s.loop, scope, reg, s1);
      OptStrsGrow(s.test, strings);
      StmtStrsGrow(s.loop, scope, reg, s1);
      OptStrsGrow(s.post, s2);
      var top := |code|;
      ForSize(s, scope, final, top);
      var je;
      ok, je := CompileTest(s.test, final);
      if !ok {
        return;
      }
      ok := CompileInner(s.loop, final);
      if !ok {
        return;
      }
      ok := CompilePost(s.post, top, final);
      if !ok {
        return;
      }
      ForPatched(old(code), s, scope, final);
      if s.test.Some? {
        PatchedFrame(code, je, |code|, top);
        PatchJumpAt(je, |code|);
      }
    }

    method CompileFor(s: Stmt, ghost final: Env) returns (ok: bool)
      requires s.For?
      requires final.reg == reg && Valid()
      modifies this`code, this`strings, this`syms, this`lastExpr
      ensures EmitsStmt(ok, StmtOk(s, old(syms), reg, inFn), SymsAfter(s, old(syms)),
                        StmtStrs(s, old(syms), reg, old(strings)), StmtCode(s, old(syms), final, |old(code)|), final)
      ensures lastExpr == old(lastExpr)
      decreases s, 2
    {
      hide Enc, EnvLe, Slot, SymsLe, ExprOk, ExprStrs, ExprCode, JumpTo, Patched, StartOk, StartStrs, StartCode,
        StartSyms,
        LoopOk, LoopStrs, LoopCode, StmtOk, StmtStrs, StmtCode, SymsAfter;
      ghost var scope, pc := syms, |code|;
      ForShape(s, scope, final, pc, strings, inFn);
      ok := CompileStart(s.start, final);
      if !ok {
        return;
      }
      ok := CompileForLoop(s, final);
    }

    // ---- function definitions and whole lines ----

    /** Compile a definition against the registry as it stands and register it. */
    method CompileFuncDecl(s: Stmt) returns (ok: bool)
      requires s.FuncDecl? && |s.params| <= MAX_PARAMS && !inFn
      modifies this`reg
      ensures ok == FnAccepted(s, old(reg), limit)
      ensures reg == if ok then RegAfter(s, old(reg)) else old(reg)
    {
      hide Enc, StmtsOk, StmtsCode, StmtsStrs, SymsAfterAll, Slot, Register;
      ghost var final := FnEnv(s.params, s.body, reg);
      var sub := new Compiler(reg, ParamSyms(s.params), true, limit);
      assert SymsLe(sub.syms, sub.syms);
      ok := sub.CompileBody(s.body, final);
      if !ok {
        return;
      }
      var f := Fn(s.name, None, false, s.ret, |s.params|, ParamDefaults(s.params), |sub.syms|, sub.strings, sub.code);
      var r := Register(reg, f);
      ok := r.Some?;
      if ok {
        reg := r.value;
      }
    }

    /** A function body and the implicit `return 0` behind it. */
    method CompileBody(body: seq<Stmt>, ghost final: Env) returns (ok: bool)
      requires final.reg == reg && Valid() && code == [] && strings == [] && inFn
      requires final == Env(SymsAfterAll(body, syms), StmtsStrs(body, syms, reg, []), reg)
      modifies this`code, this`strings, this`syms, this`lastExpr
      ensures reg == old(reg)
      ensures var c := StmtsCode(body, old(syms), final, 0) + (Enc(Push(0)) + Enc(Ret));
        && ok == (StmtsOk(body, old(syms), reg, true) && |final.strs| <= MAX_STRINGS && |c| <= limit)
        && (ok ==> code == c && syms == final.syms && strings == final.strs)
    {
      hide Enc, StmtsOk, StmtsCode, StmtsStrs, SymsAfterAll, Slot, SymsLe;
      ok := CompileBlock(body, final);
      if !ok {
        return;
      }
      SymsLeRefl(syms);
      ok := EmitReturnZero();
    }

    method EmitReturnZero() returns (ok: bool)
      requires Valid()
      modifies this`code
      ensures var c := Enc(Push(0)) + Enc(Ret);
        && (ok <==> |old(code)| + |c| <= limit)
        && (ok ==> code == old(code) + c)
    {
      hide Enc;
      Assoc(code, Enc(Push(0)), Enc(Ret));
      ok := Emit(Push(0));
      if !ok {
        return;
      }
      ok := Emit(Ret);
    }

    /** A top-level statement or definition. */
    method CompileTop(s: Stmt, last: bool, ghost final: Env) returns (ok: bool)
      requires final.reg == reg && Valid() && !inFn && (s.FuncDecl? ==> |s.params| <= MAX_PARAMS)
      modifies this`code, this`strings, this`syms, this`lastExpr, this`reg
      ensures var keep := last && HasValue(s, old(syms), old(reg));
        var strs, part := StmtStrs(s, old(syms), old(reg), old(strings)),
          TopCode(s, keep, old(syms), final, |old(code)|);
        && ok == (TopOk(s, old(syms), old(reg), limit) && |strs| <= MAX_STRINGS && |old(code)| + |part| <= limit)
        && (ok ==>
              && Valid()
              && syms == SymsAfter(s, old(syms)) && strings == strs && reg == RegAfter(s, old(reg))
              && |code| == |old(code)| + |part|
              && lastExpr == (old(lastExpr) || keep)
              && (EnvLe(Env(syms, strings, old(reg)), final) ==> EnvLe(old(Now()), final) && code == old(code) + part))
        && (!ok ==> reg == old(reg))
    {
      hide Enc, StmtOk, EnvLe, ExprCode, ExprStrs, ExprOk;
      if s.FuncDecl? {
        ok := CompileFuncDecl(s);
      } else {
        ok := CompileStmt(s, last, final);
      }
    }

    /** Compile one REPL line. It succeeds if and only if every statement and
        definition is acceptable and the tables and the code fit; definitions
        that precede a failing statement stay registered. */
    method CompileLine(stmts: seq<Stmt>) returns (ok: bool)
      requires code == [] && syms == [] && strings == [] && !inFn && !lastExpr && ParamsFit(stmts)
      modifies this
      ensures var scope, strs := LineSyms(stmts, []), LineStrs(stmts, [], old(reg), []);
        var c := LineCode(stmts, [], scope, strs, old(reg), 0);
        && ok == (LineOk(stmts, [], old(reg), limit) && |strs| <= MAX_STRINGS && |c| <= limit)
        && (ok ==>
              && syms == scope && strings == strs && code == c
              && lastExpr == LineKeeps(stmts, [], old(reg))
              && reg == RegsAfter(stmts, old(reg)))
      ensures exists k :: 0 <= k <= |stmts| && reg == RegsAfter(stmts[..k], old(reg))
    {
      hide Enc, StmtOk, StmtCode, StmtStrs, SymsAfter, Slot, SymsLe, RegAfter, HasValue, FnAccepted, TopCode, TopOk;
      hide LineOk, LineSyms, LineStrs, LineKeeps, LineCode, RegsAfter, EnvLe;
      LineEmpty(syms, syms, strings, reg, limit, 0);
      ghost var reg0 := reg;
      ghost var S, T := LineSyms(stmts, []), LineStrs(stmts, [], reg, []);
      ghost var all := LineCode(stmts, [], S, T, reg, 0);
      var i := 0;
      while i < |stmts|
        invariant i <= |stmts| && Valid()
        invariant reg == RegsAfter(stmts[..i], reg0)
        invariant LineOk(stmts, [], reg0, limit) == LineOk(stmts[i..], syms, reg, limit)
        invariant S == LineSyms(stmts[i..], syms) && T == LineStrs(stmts[i..], syms, reg, strings)
        invariant RegsAfter(stmts, reg0) == RegsAfter(stmts[i..], reg)
        invariant LineKeeps(stmts, [], reg0) == (lastExpr || LineKeeps(stmts[i..], syms, reg))
        invariant i < |stmts| ==> !lastExpr
        invariant |all| == |code| + |LineCode(stmts[i..], syms, S, T, reg, |code|)|
        invariant EnvLe(Now(), Env(S, T, reg)) ==> all == code + LineCode(stmts[i..], syms, S, T, reg, |code|)
      {
        RegsAfterSnoc(stmts[..i], stmts[i], reg0);
        assert stmts[..i] + [stmts[i]] == stmts[..i + 1];
        LineUnfold(stmts[i..], syms, reg, strings, S, T, code, limit);
        assert stmts[i..][1..] == stmts[i + 1..] && stmts[i..][0] == stmts[i];
        ok := CompileTop(stmts[i], i == |stmts| - 1, Env(S, T, reg));
        if !ok {
          return;
        }
        i := i + 1;
      }
      assert stmts[i..] == [];
      LineEmpty(syms, S, strings, reg, limit, |code|);
      EnvLeRefl(Now());
      ok := Emit(Halt);
    }
  }
}
