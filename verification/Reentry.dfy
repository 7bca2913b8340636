/** Builtins that run lines of their own, in the middle of a run. Such a line may
    redefine a function, and with that free its code; the machine that called the
    builtin goes wrong exactly if that function is still running. */
module Reentry {
  import opened Wrappers
  import opened Word
  import opened Ast
  import opened Bytecode
  import opened CodeGen
  import opened Linking
  import opened Vm
  import opened Compiled
  import opened Simulation
  import opened Session
  import C = Compiler

  /** The call redefines a function that is on the frame stack, and answers. */
  predicate CallFrees(m: Machine, vm: Vm, si: nat, count: nat)
    requires |vm.frames| > 0
  {
    var strings, reg := vm.frames[|vm.frames| - 1].fn.strings, RegNow(m, vm.trace);
    si < |strings| && Lookup(reg, strings[si]).Some? &&
    var k := reg[Lookup(reg, strings[si]).value].builtin;
    k.Some? && count <= |vm.stack| &&
    var ev := Event(k.value, vm.stack[|vm.stack| - count..]);
    m.host(vm.trace, ev).Some? && Frees(NewsAt(m, vm.trace, ev), vm.frames)
  }

  /** The machine is about to make such a call. */
  predicate FreesNow(m: Machine, vm: Vm) {
    |vm.frames| > 0 &&
    var f := vm.frames[|vm.frames| - 1];
    var r := Fetch(f.fn.code, f.pc);
    r.Got? && r.i.CallI? && CallFrees(m, vm, r.i.si, r.i.count)
  }

  predicate Freed(o: Outcome) { o.Failed? && o.err == CodeFreed }

  lemma FreedStep(m: Machine, vm: Vm)
    ensures Freed(Step(m, vm)) <==> FreesNow(m, vm)
  {
    hide Fetch, CallFrees, Exec, Goto;
    if |vm.frames| > 0 {
      var f := vm.frames[|vm.frames| - 1];
      var r := Fetch(f.fn.code, f.pc);
      if r.Got? {
        FramesMoved(vm, f.pc + r.size);
        var vm1 := Goto(vm, f.pc + r.size);
        if r.i.CallI? {
          FreedCall(m, vm1, r.i.si, r.i.count);
          FreesSame(m, vm, f.pc + r.size, r.i.si, r.i.count);
        } else {
          FreedExec(m, vm1, r.i);
        }
      }
    }
  }

  lemma FramesMoved(vm: Vm, pc: nat)
    requires |vm.frames| > 0
    ensures |Goto(vm, pc).frames| == |vm.frames|
  {
  }

  lemma FreedCall(m: Machine, vm: Vm, si: nat, count: nat)
    requires |vm.frames| > 0
    ensures Freed(Exec(m, vm, CallI(si % TWO32, count % TWO32))) <==> CallFrees(m, vm, si % TWO32, count % TWO32)
  {
    hide Lookup, RegNow, NewsAt, Frees, Alu;
  }

  lemma FreedExec(m: Machine, vm: Vm, i: Instr)
    requires |vm.frames| > 0 && !i.CallI?
    ensures !Freed(Exec(m, vm, i))
  {
    hide Lookup, RegNow, NewsAt, Frees, Alu, ExecCall;
  }

  lemma FreesSame(m: Machine, vm: Vm, pc: nat, si: nat, count: nat)
    requires |vm.frames| > 0
    ensures |Goto(vm, pc).frames| > 0 && (CallFrees(m, Goto(vm, pc), si, count) <==> CallFrees(m, vm, si, count))
  {
    hide Lookup, RegNow, NewsAt;
    var a, b := vm.frames, Goto(vm, pc).frames;
    assert |a| == |b| && forall k :: 0 <= k < |a| ==> a[k].fn == b[k].fn;
  }

  /** A run goes wrong by freed code exactly if, at one of its states, a builtin
      redefines a function that is still running. */
  lemma {:induction false} FreedExactly(m: Machine, vm: Vm, n: nat)
    ensures Freed(Steps(m, vm, n)) <==> exists k :: FreesAt(m, vm, n, k)
    decreases n
  {
    hide Step, FreesNow;
    FreedStep(m, vm);
    StepsZero(m, vm);
    if n > 0 && Step(m, vm).Run? {
      var vm1, n1 := Step(m, vm).vm, n - 1;
      FreedExactly(m, vm1, n1);
      assert !FreesAt(m, vm, n, 0);
      if k: nat :| FreesAt(m, vm, n, k) {
        FreesLater(m, vm, n, k);
      }
      if k: nat :| FreesAt(m, vm1, n1, k) {
        FreesLater(m, vm, n, k + 1);
      }
    } else if n > 0 && Freed(Step(m, vm)) {
      assert FreesAt(m, vm, n, 0);
    } else {
      forall k: nat ensures !FreesAt(m, vm, n, k) {
      }
    }
  }

  lemma FreesLater(m: Machine, vm: Vm, n: nat, k: nat)
    requires n > 0 && k > 0 && Step(m, vm).Run?
    ensures FreesAt(m, vm, n, k) <==> FreesAt(m, Step(m, vm).vm, n - 1, k - 1)
  {
    hide Step, FreesNow;
  }

  /** After `k` of the `n` turns the machine is about to make such a call. */
  predicate FreesAt(m: Machine, vm: Vm, n: nat, k: nat) {
    k < n && Steps(m, vm, k).Run? && FreesNow(m, Steps(m, vm, k).vm)
  }

  // ---- lines that only add functions ----

  predicate HasName(reg: seq<Fn>, name: string) { exists i :: 0 <= i < |reg| && reg[i].name == name }

  /** Builtins define only functions of new names. */
  ghost predicate OnlyNew(m: Machine) {
    forall reg: seq<Fn>, tr: Trace, ev: Event, i ::
      0 <= i < |m.news(reg, tr, ev)| && m.news(reg, tr, ev)[i].FuncDecl? ==>
      !HasName(reg, m.news(reg, tr, ev)[i].name)
  }

  /** Every called function is registered. */
  predicate Registered(m: Machine, vm: Vm) {
    forall k :: 1 <= k < |vm.frames| ==> HasName(RegNow(m, vm.trace), vm.frames[k].fn.name)
  }

  lemma NothingFreed(m: Machine, vm: Vm)
    requires OnlyNew(m) && Registered(m, vm)
    ensures !FreesNow(m, vm)
  {
    hide Fetch, Lookup, RegNow, HasName;
    forall ev: Event ensures !Frees(NewsAt(m, vm.trace, ev), vm.frames) {
    }
  }

  lemma NamesStay(m: Machine, tr: Trace, ev: Event, name: string)
    requires HasName(RegNow(m, tr), name)
    ensures HasName(RegNow(m, tr + [ev]), name)
  {
    hide RegNow, RegsAfter;
    RegNext(m, tr, ev);
    RegsGrow(NewsAt(m, tr, ev), RegNow(m, tr));
    var i :| 0 <= i < |RegNow(m, tr)| && RegNow(m, tr)[i].name == name;
    assert RegNow(m, tr + [ev])[i].name == name;
  }

  lemma RegisteredStep(m: Machine, vm: Vm)
    requires Registered(m, vm) && Step(m, vm).Run?
    ensures Registered(m, Step(m, vm).vm)
  {
    hide Fetch, RegNow, HasName, Alu, Lookup, NewsAt, Frees;
    var f := vm.frames[|vm.frames| - 1];
    var r := Fetch(f.fn.code, f.pc);
    var vm1 := Goto(vm, f.pc + r.size);
    assert Registered(m, vm1);
    if r.i.CallI? {
      RegisteredCall(m, vm1, r.i.si, r.i.count);
    } else {
      RegisteredExec(m, vm1, r.i);
    }
  }

  lemma RegisteredExec(m: Machine, vm: Vm, i: Instr)
    requires |vm.frames| > 0 && Registered(m, vm) && !i.CallI? && Exec(m, vm, i).Run?
    ensures Registered(m, Exec(m, vm, i).vm)
  {
    hide RegNow, HasName, Alu, Lookup, NewsAt, Frees, ExecCall;
  }

  lemma RegisteredCall(m: Machine, vm: Vm, si: nat, count: nat)
    requires |vm.frames| > 0 && Registered(m, vm) && ExecCall(m, vm, si, count).Run?
    ensures Registered(m, ExecCall(m, vm, si, count).vm)
  {
    hide RegNow, HasName, NewsAt, Frees, Lookup;
    var reg := RegNow(m, vm.trace);
    var idx := Lookup(reg, vm.frames[|vm.frames| - 1].fn.strings[si]).value;
    var k := reg[idx].builtin;
    if k.Some? {
      var ev := Event(k.value, vm.stack[|vm.stack| - count..]);
      forall j | 1 <= j < |vm.frames| ensures HasName(RegNow(m, vm.trace + [ev]), vm.frames[j].fn.name) {
        NamesStay(m, vm.trace, ev, vm.frames[j].fn.name);
      }
    } else {
      ItsName(reg, idx);
    }
  }

  lemma ItsName(reg: seq<Fn>, idx: nat)
    requires idx < |reg|
    ensures HasName(reg, reg[idx].name)
  {
  }

  lemma {:induction false} NeverFreed(m: Machine, vm: Vm, n: nat)
    requires OnlyNew(m) && Registered(m, vm)
    ensures !Freed(Steps(m, vm, n))
    decreases n
  {
    hide Step, FreesNow, OnlyNew, Registered;
    if n > 0 {
      NothingFreed(m, vm);
      FreedStep(m, vm);
      if Step(m, vm).Run? {
        RegisteredStep(m, vm);
        NeverFreed(m, Step(m, vm).vm, n - 1);
      }
    }
  }

  /** Where builtins define nothing, or only functions of new names, a line can
      fail by a full stack or by what it computes, and in no other way. */
  lemma LineSafeNew(stmts: seq<Stmt>, w: World, limit: nat, tr: Trace, n: nat)
    requires WorldOk(w) && LineAccepted(stmts, w.m.reg, limit) && limit <= C.MAX_CODE && NewsOk(w.m, limit)
      && OnlyNew(w.m)
    ensures var o := RunLine(stmts, w, tr, n);
      o.Failed? ==> IsOverflow(o.err) || IsRuntime(o.err)
  {
    hide WorldOk, LineAccepted, LineFn, Steps, NewsOk, OnlyNew;
    LineSafe(stmts, w, limit, tr, n);
    var w1 := WorldAfterAll(stmts, w);
    WorldMachine(stmts, w);
    NewsSame(w.m, w1.m);
    NeverFreed(w1.m, Start(LineFn(stmts, w.m.reg), tr), n);
  }

  lemma NewsSame(m: Machine, m1: Machine)
    requires OnlyNew(m) && m1.news == m.news
    ensures OnlyNew(m1)
  {
  }

  // ---- it does happen ----

  const RUN: Fn := Fn("Run", Some(0), false, VOID, 1, [], 0, [], [])

  const BODY: seq<Stmt> := [ExprStmt(Call("Run", [StrLit("s")])), Return(Some(Lit(1)))]

  /** `I64 f() { Run("s"); return 1; }` */
  const DEF: Stmt := FuncDecl("f", I64, [], BODY)

  /** and on the same line `f();` */
  const LINE: seq<Stmt> := [DEF, ExprStmt(Call("f", []))]

  /** The file named s holds `I64 f() { return 2; }`. */
  const AGAIN: Stmt := FuncDecl("f", I64, [], [Return(Some(Lit(2)))])

  /** A session that has the builtin `Run` and no function. */
  function Session1(lit: (string, string) -> u64): World {
    var news := (reg: seq<Fn>, tr: Trace, ev: Event) => if FnAccepted(AGAIN, reg, C.MAX_CODE) then [AGAIN] else [];
    World(Machine([RUN], (tr: Trace, ev: Event) => Some(0), news, lit), [NoSource])
  }

  lemma NamesDiffer(a: string, b: string)
    requires |a| != |b|
    ensures Lower(a) != Lower(b)
  {
    assert |Lower(a)| == |a| && |Lower(b)| == |b|;
  }

  lemma RunFound(reg: seq<Fn>)
    requires |reg| > 0 && reg[0] == RUN
    ensures Lookup(reg, "Run") == Some(0)
  {
  }

  /** The code of the function, as far as it matters. */
  lemma DemoFn() returns (rest: seq<byte>)
    ensures var f := FnOf(DEF, [RUN]);
      && f == Fn("f", None, false, I64, 0, [], 0, ["s", "Run"], Enc(PushStr(0)) + (Enc(CallI(1, 1)) + rest))
      && |f.code| <= 64 && StmtsOk(BODY, [], [RUN], true)
  {
    SmallCodes();
    hide Enc;
    RunFound([RUN]);
    OneCall([RUN]);
    rest := DemoCode(FnEnv([], BODY, [RUN]));
  }

  lemma OneCall(reg: seq<Fn>)
    requires reg == [RUN]
    ensures StmtsOk(BODY, [], reg, true) && SymsAfterAll(BODY, []) == []
    ensures StmtsStrs(BODY, [], reg, []) == ["s", "Run"] && Pads(reg, "Run", 1) == []
  {
    hide Lookup;
    RunFound(reg);
    var e := Call("Run", [StrLit("s")]);
    assert BODY[0] == ExprStmt(e) && BODY[1..] == [Return(Some(Lit(1)))] && BODY[1..][1..] == [];
    assert e.args[1..] == [];
    assert ExprStrs(e, []) == ["s", "Run"];
  }

  lemma DemoCode(env: Env) returns (rest: seq<byte>)
    requires env == Env([], ["s", "Run"], [RUN])
    ensures FnCode([], BODY, env) == Enc(PushStr(0)) + (Enc(CallI(1, 1)) + rest) && |rest| <= 40
  {
    hide Enc, Lookup;
    OneCall([RUN]);
    var e, a := Call("Run", [StrLit("s")]), [StrLit("s")];
    assert BODY[0] == ExprStmt(e) && BODY[1..] == [Return(Some(Lit(1)))] && BODY[1..][1..] == [] && a[1..] == [];
    var p, c := Enc(PushStr(0)), Enc(CallI(1, 1));
    assert ArgsCode(a, env, 0) == p by { assert p + [] == p; }
    assert ExprCode(e, env, 0) == p + c by { assert [] + c == c; }
    var c2 := Enc(Push(1)) + Enc(Ret);
    var tail := c2 + (Enc(Push(0)) + Enc(Ret));
    rest := Enc(Pop) + tail;
    SmallCodes();
    assert StmtsCode(BODY, [], env, 0) == (p + c + Enc(Pop)) + c2 by {
      assert c2 + [] == c2;
    }
    assert (p + c + Enc(Pop)) + c2 + (Enc(Push(0)) + Enc(Ret)) == p + (c + rest);
  }

  lemma SmallCodes()
    ensures |Enc(Pop)| == 1 && |Enc(Ret)| == 1 && |Enc(Push(0))| == 9 && |Enc(Push(1))| == 9
    ensures |Enc(PushStr(0))| == 5 && |Enc(CallI(1, 1))| == 9 && |Enc(CallI(0, 0))| == 9 && |Enc(Halt)| == 1
    ensures |Enc(Push(2))| == 9
  {
  }

  lemma DemoReg()
    ensures RegAfter(DEF, [RUN]) == [RUN, FnOf(DEF, [RUN])] && Register([RUN], FnOf(DEF, [RUN])).Some?
  {
    var rest := DemoFn();
    hide Enc, FnOf;
    assert ExactIndex([RUN], "f", 1) == 1;
  }

  lemma DemoFound(f: Fn)
    requires f.name == "f"
    ensures Lookup([RUN, f], "f") == Some(1)
  {
    NamesDiffer("Run", "f");
    var reg := [RUN, f];
    assert reg[0] == RUN && reg[1] == f;
    assert LookupFrom(reg, "f", 1) == Some(1);
  }

  /** The chunk of the line: the call, and a halt. */
  lemma DemoLine()
    ensures LineFn(LINE, [RUN]) == Fn("<line>", None, false, VOID, 0, [], 0, ["f"], Enc(CallI(0, 0)) + Enc(Halt))
    ensures LineOk(LINE, [], [RUN], C.MAX_CODE)
  {
    var rest := DemoFn();
    DemoReg();
    hide Enc, FnOf, Lookup, Register, StmtStrs, TopCode, HasValue, StmtOk, StmtsOk, RegAfter, LineOk, LineStrs,
      LineCode;
    var f, s := FnOf(DEF, [RUN]), ExprStmt(Call("f", []));
    assert LINE[0] == DEF && LINE[1..] == [s] && [s][1..] == [];
    var reg := [RUN, f];
    DemoCall(reg, f);
    DemoTop(f);
    DemoTail(reg, s);
    var t := Enc(CallI(0, 0)) + Enc(Halt);
    LineUnfold(LINE, [], [RUN], [], [], ["f"], [], C.MAX_CODE);
    assert [] + t == t && ([] + []) + t == t;
    assert LineSyms(LINE, []) == LineSyms([s], []) == [];
  }

  lemma DemoTop(f: Fn)
    requires f == FnOf(DEF, [RUN]) && |f.code| <= 64
    ensures TopOk(DEF, [], [RUN], C.MAX_CODE) && SymsAfter(DEF, []) == [] && StmtStrs(DEF, [], [RUN], []) == []
    ensures forall keep, env, pc :: TopCode(DEF, keep, [], env, pc) == []
  {
    var rest := DemoFn();
    DemoReg();
    assert ParamSyms([]) == [] && FnEnv([], BODY, [RUN]).strs == FnOf(DEF, [RUN]).strings;
    hide Enc, Register, FnOf, StmtsOk, FnEnv, ParamSyms, StmtsStrs;
    assert FnAccepted(DEF, [RUN], C.MAX_CODE);
  }

  lemma DemoTail(reg: seq<Fn>, s: Stmt)
    requires s == ExprStmt(Call("f", [])) && StmtOk(s, [], reg, false) && HasValue(s, [], reg)
    requires StmtStrs(s, [], reg, []) == ["f"]
      && TopCode(s, true, [], Env([], ["f"], reg), 0) == Enc(CallI(0, 0))
    ensures LineOk([s], [], reg, C.MAX_CODE) && LineSyms([s], []) == [] && LineStrs([s], [], reg, []) == ["f"]
    ensures LineCode([s], [], [], ["f"], reg, 0) == Enc(CallI(0, 0)) + Enc(Halt)
  {
    hide Enc, StmtStrs, TopCode, HasValue, StmtOk, LineOk, LineStrs, LineCode, LineSyms;
    assert [s][0] == s && [s][1..] == [];
    var c := Enc(CallI(0, 0));
    LineUnfold([s], [], reg, [], [], ["f"], [], C.MAX_CODE);
    LineEmpty([], [], ["f"], reg, C.MAX_CODE, |c|);
    assert [] + c == c && [] + LineCode([s], [], [], ["f"], reg, 0) == LineCode([s], [], [], ["f"], reg, 0);
  }

  lemma DemoCall(reg: seq<Fn>, f: Fn)
    requires reg == [RUN, f] && f.name == "f" && f.nargs == 0 && !f.variadic && f.ret == I64
    ensures var e := Call("f", []);
      && StmtOk(ExprStmt(e), [], reg, false) && HasValue(ExprStmt(e), [], reg)
      && StmtStrs(ExprStmt(e), [], reg, []) == ["f"]
      && TopCode(ExprStmt(e), true, [], Env([], ["f"], reg), 0) == Enc(CallI(0, 0))
  {
    hide Enc, Lookup;
    DemoFound(f);
    assert reg[1] == f;
    var c := Enc(CallI(0, 0));
    assert Pads(reg, "f", 0) == [];
    assert [] + ([] + c) == c;
  }

  lemma DemoAccepted()
    ensures LineAccepted(LINE, [RUN], C.MAX_CODE)
  {
    DemoLine();
    SmallCodes();
    hide Enc, LineOk, LineFn;
  }

  lemma DemoNews(w: World, lit: (string, string) -> u64)
    requires w == Session1(lit)
    ensures NewsOk(w.m, C.MAX_CODE)
  {
    hide FnAccepted;
    forall reg: seq<Fn>, tr: Trace, ev: Event ensures Accepts(w.m.news(reg, tr, ev), reg, C.MAX_CODE) {
      var news := w.m.news(reg, tr, ev);
      if FnAccepted(AGAIN, reg, C.MAX_CODE) {
        assert news == [AGAIN];
        AcceptsOne(AGAIN, reg);
      } else {
        assert news == [];
      }
    }
  }

  lemma AcceptsOne(s: Stmt, reg: seq<Fn>)
    requires s.FuncDecl? && FnAccepted(s, reg, C.MAX_CODE) && s.params == []
    ensures Accepts([s], reg, C.MAX_CODE)
  {
    hide FnAccepted, RegAfter, LineOk;
    assert [s][0] == s && [s][1..] == [];
    LineUnfold([s], [], reg, [], [], [], [], C.MAX_CODE);
    LineEmpty([], [], [], RegAfter(s, reg), C.MAX_CODE, 0);
  }

  /** The new definition is accepted where the old one stands. */
  lemma AgainAccepted(f: Fn)
    requires f.name == "f"
    ensures FnAccepted(AGAIN, [RUN, f], C.MAX_CODE)
  {
    var reg, b := [RUN, f], [Return(Some(Lit(2)))];
    assert b[1..] == [];
    SmallCodes();
    hide Enc;
    assert ExactIndex(reg, "f", 1) == 1 by { assert reg[1] == f; }
    assert reg[0] == RUN;
    assert FnEnv([], b, reg) == Env([], [], reg);
    assert StmtsCode(b, [], FnEnv([], b, reg), 0) == Enc(Push(2)) + Enc(Ret) + [];
  }

  lemma DemoRun(m: Machine, lit: (string, string) -> u64)
    requires m == Session1(lit).m.(reg := [RUN, FnOf(DEF, [RUN])])
    ensures Freed(Steps(m, Start(LineFn(LINE, [RUN]), []), 3))
  {
    var rest := DemoFn();
    DemoLine();
    SmallCodes();
    var f, line := FnOf(DEF, [RUN]), LineFn(LINE, [RUN]);
    hide Enc, FnOf, LineFn, Lookup, FnAccepted, Session1;
    var vm0 := Vm([], [Frame(line, 0, 0)], []);
    assert Start(line, []) == vm0;
    var vm1 := Vm([], [Frame(line, 9, 0), Frame(f, 0, 0)], []);
    var vm2 := Vm([m.lit("f", "s")], [Frame(line, 9, 0), Frame(f, 5, 0)], []);
    FirstCall(m, vm0, vm1, line, f);
    SecondPush(m, vm1, vm2, f, rest);
    LastCall(m, vm2, f, rest, lit);
    FreedStep(m, vm2);
    hide Step, FreesNow;
    StepsOne(m, vm0);
    StepsOne(m, vm1);
    StepsOne(m, vm2);
    StepsThen(m, vm0, 1, vm1, 1);
    StepsThen(m, vm0, 2, vm2, 1);
  }

  lemma FirstCall(m: Machine, vm0: Vm, vm1: Vm, line: Fn, f: Fn)
    requires m.reg == [RUN, f] && f.name == "f" && f.builtin == None && f.nlocals == 0
    requires line.strings == ["f"] && line.code == Enc(CallI(0, 0)) + Enc(Halt) && |Enc(CallI(0, 0))| == 9
    requires vm0 == Vm([], [Frame(line, 0, 0)], []) && vm1 == Vm([], [Frame(line, 9, 0), Frame(f, 0, 0)], [])
    ensures Step(m, vm0) == Run(vm1)
  {
    hide Enc, Lookup, Fetch;
    DemoFound(f);
    WholeAt(line.code);
    AtSplit(line.code, 0, Enc(CallI(0, 0)), Enc(Halt));
    FetchEnc(line.code, 0, CallI(0, 0));
    assert m.reg[1] == f && RegNow(m, []) == m.reg;
    assert Goto(vm0, 9) == Vm([], [Frame(line, 9, 0)], []);
  }

  lemma SecondPush(m: Machine, vm1: Vm, vm2: Vm, f: Fn, rest: seq<byte>)
    requires f.strings == ["s", "Run"] && |Enc(PushStr(0))| == 5
      && f.code == Enc(PushStr(0)) + (Enc(CallI(1, 1)) + rest)
    requires |vm1.frames| == 2 && vm1.stack == [] && vm1.frames[1] == Frame(f, 0, 0)
    requires vm2 == vm1.(stack := [m.lit(f.name, "s")], frames := [vm1.frames[0], Frame(f, 5, 0)])
    ensures Step(m, vm1) == Run(vm2)
  {
    hide Enc, Fetch;
    WholeAt(f.code);
    AtSplit(f.code, 0, Enc(PushStr(0)), Enc(CallI(1, 1)) + rest);
    FetchEnc(f.code, 0, PushStr(0));
    assert Goto(vm1, 5).frames == vm2.frames;
  }

  lemma LastCall(m: Machine, vm: Vm, f: Fn, rest: seq<byte>, lit: (string, string) -> u64)
    requires m == Session1(lit).m.(reg := [RUN, f]) && f.name == "f" && f.strings == ["s", "Run"]
    requires f.code == Enc(PushStr(0)) + (Enc(CallI(1, 1)) + rest) && |Enc(PushStr(0))| == 5
    requires |vm.frames| == 2 && |vm.stack| == 1 && vm.frames[1] == Frame(f, 5, 0) && vm.trace == []
    ensures FreesNow(m, vm)
  {
    hide Enc, Fetch, Lookup, FnAccepted;
    WholeAt(f.code);
    AtSplit(f.code, 0, Enc(PushStr(0)), Enc(CallI(1, 1)) + rest);
    AtSplit(f.code, 5, Enc(CallI(1, 1)), rest);
    FetchEnc(f.code, 5, CallI(1, 1));
    RunFound(m.reg);
    AgainAccepted(f);
    assert RegNow(m, []) == m.reg;
    var news := NewsAt(m, [], Event(0, vm.stack));
    assert news == [AGAIN];
    assert news[0].name == vm.frames[1].fn.name;
    assert vm.stack[0..] == vm.stack;
  }

  /** In that session this line is accepted, and its run reads freed code: the
      file redefines the function that is running it. */
  lemma FreedWitness(lit: (string, string) -> u64)
    ensures var w := Session1(lit);
      && WorldOk(w) && LineAccepted(LINE, w.m.reg, C.MAX_CODE) && NewsOk(w.m, C.MAX_CODE)
      && Freed(RunLine(LINE, w, [], 3))
  {
    hide Steps, LineFn, NewsOk, LineAccepted, Start, WorldAfterAll, RegsAfter, FnOf;
    var w := Session1(lit);
    DemoNews(w, lit);
    DemoAccepted();
    DemoRegs();
    WorldMachine(LINE, w);
    DemoRun(WorldAfterAll(LINE, w).m, lit);
  }

  lemma DemoRegs()
    ensures RegsAfter(LINE, [RUN]) == [RUN, FnOf(DEF, [RUN])]
  {
    hide FnOf, Register;
    DemoReg();
    var s := ExprStmt(Call("f", []));
    assert LINE[0] == DEF && LINE[1..] == [s] && [s][0] == s && [s][1..] == [];
    LineUnfold(LINE, [], [RUN], [], [], [], [], 0);
    LineUnfold([s], [], [RUN, FnOf(DEF, [RUN])], [], [], [], [], 0);
    LineEmpty([], [], [], [RUN, FnOf(DEF, [RUN])], 0, 0);
    assert RegAfter(s, [RUN, FnOf(DEF, [RUN])]) == [RUN, FnOf(DEF, [RUN])];
  }
}
