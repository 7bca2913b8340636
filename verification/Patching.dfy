/** Back-patching: emitting a jump with a placeholder target and filling the
    target in later gives the layouts of `CodeGen`, which have it from the start. */
module Patching {
  import opened Wrappers
  import opened Word
  import opened Ast
  import opened Bytecode
  import opened CodeGen
  import opened CodeGenFacts

  function Patched(code: seq<byte>, at: nat, target: nat): seq<byte>
    requires at + 5 <= |code|
  {
    code[..at + 1] + Enc32(ToU32(target)) + code[at + 5..]
  }

  datatype JumpKind = Always | IfFalse | IfTrue

  function JumpTo(k: JumpKind, t: nat): Instr {
    match k
    case Always => Jmp(ToU32(t))
    case IfFalse => JmpF(ToU32(t))
    case IfTrue => JmpT(ToU32(t))
  }

  function JumpOp(k: JumpKind): byte {
    match k
    case Always => 8
    case IfFalse => 9
    case IfTrue => 10
  }

  lemma JumpShape(k: JumpKind, t: nat)
    ensures Enc(JumpTo(k, t)) == [JumpOp(k)] + Enc32(ToU32(t))
    ensures |Enc(JumpTo(k, t))| == 5
  {
  }

  /** Patching a jump that was emitted with a placeholder gives that jump with
      its real target and touches nothing else. */
  lemma PatchJump(pre: seq<byte>, k: JumpKind, post: seq<byte>, t: nat)
    ensures |pre + (Enc(JumpTo(k, 0)) + post)| == |pre| + 5 + |post|
    ensures Patched(pre + (Enc(JumpTo(k, 0)) + post), |pre|, t) == pre + (Enc(JumpTo(k, t)) + post)
  {
    hide Enc, Enc32, JumpTo, ToU32;
    JumpShape(k, 0);
    JumpShape(k, t);
    var code := pre + (Enc(JumpTo(k, 0)) + post);
    assert code[..|pre| + 1] == pre + [JumpOp(k)];
    assert code[|pre| + 5..] == post;
  }

  // ---- the parts of a `for` ----

  /** A test with its exit jump before patching. */
  function TestRaw(test: Option<Expr>, env: Env, pc: nat): seq<byte> {
    if test.Some? then ExprCode(test.value, env, pc) + Enc(JumpTo(IfFalse, 0)) else []
  }

  predicate LoopOk(s: Stmt, sc: seq<Sym>, reg: seq<Fn>, inFn: bool)
    requires s.For?
  {
    OptOk(s.test, sc, reg) && StmtOk(s.loop, sc, reg, inFn) && OptOk(s.post, SymsAfter(s.loop, sc), reg)
  }

  function LoopStrs(s: Stmt, sc: seq<Sym>, reg: seq<Fn>, ss: seq<string>): seq<string>
    requires s.For?
  {
    OptStrs(s.post, StmtStrs(s.loop, sc, reg, OptStrs(s.test, ss)))
  }

  function LoopCode(s: Stmt, sc: seq<Sym>, env: Env, top: nat): seq<byte>
    requires s.For?
  {
    var ct := TestCode(s.test, env, top);
    var p1 := top + |ct| + (if s.test.Some? then 5 else 0);
    var cb := StmtCode(s.loop, sc, env, p1);
    ForLayout(ct, s.test.Some?, cb, PostCode(s.post, env, p1 + |cb|), top)
  }

  lemma ForShape(s: Stmt, scope: seq<Sym>, env: Env, pc: nat, ss: seq<string>, inFn: bool)
    requires s.For?
    ensures StmtCode(s, scope, env, pc) ==
            StartCode(s.start, env, pc) + LoopCode(s, StartSyms(s.start, scope), env,
              pc + |StartCode(s.start, env, pc)|)
    ensures StmtOk(s, scope, env.reg, inFn) <==>
            StartOk(s.start, scope, env.reg) && LoopOk(s, StartSyms(s.start, scope), env.reg, inFn)
    ensures SymsAfter(s, scope) == SymsAfter(s.loop, StartSyms(s.start, scope))
    ensures StmtStrs(s, scope, env.reg, ss) == LoopStrs(s, StartSyms(s.start, scope), env.reg, StartStrs(s.start, ss))
    ensures var s1 := StartStrs(s.start, ss); ss <= s1 <= LoopStrs(s, StartSyms(s.start, scope), env.reg, s1)
  {
    hide Enc, ExprCode, ExprOk, ExprStrs, Slot;
    var sc, s1 := StartSyms(s.start, scope), StartStrs(s.start, ss);
    StartStrsGrow(s.start, ss);
    OptStrsGrow(s.test, s1);
    StmtStrsGrow(s.loop, sc, env.reg, OptStrs(s.test, s1));
    OptStrsGrow(s.post, StmtStrs(s.loop, sc, env.reg, OptStrs(s.test, s1)));
  }

  lemma ForSize(s: Stmt, sc: seq<Sym>, env: Env, top: nat)
    requires s.For?
    ensures
      var tr := TestRaw(s.test, env, top);
      var cb := StmtCode(s.loop, sc, env, top + |tr|);
      var cp := PostCode(s.post, env, top + |tr| + |cb|);
      && |LoopCode(s, sc, env, top)| == |tr| + |cb| + |cp| + 5
      && |Enc(JumpTo(Always, top))| == 5
  {
    hide Enc, ExprCode, StmtCode;
    JumpShape(IfFalse, 0);
    JumpShape(Always, top);
    var tr := TestRaw(s.test, env, top);
    var cb := StmtCode(s.loop, sc, env, top + |tr|);
    var cp := PostCode(s.post, env, top + |tr| + |cb|);
    JumpShape(IfFalse, top + |tr| + |cb| + |cp| + 5);
  }

  lemma ForPatched(pre: seq<byte>, s: Stmt, sc: seq<Sym>, env: Env)
    requires s.For?
    ensures
      var top := |pre|;
      var tr := TestRaw(s.test, env, top);
      var cb := StmtCode(s.loop, sc, env, top + |tr|);
      var cp := PostCode(s.post, env, top + |tr| + |cb|);
      var raw := ((pre + tr) + cb) + (cp + Enc(JumpTo(Always, top)));
      if s.test.None? then raw == pre + LoopCode(s, sc, env, top)
      else
        && |tr| >= 5 && |raw| >= top + |tr|
        && Patched(raw, top + |tr| - 5, |raw|) == pre + LoopCode(s, sc, env, top)
  {
    hide Enc, ExprCode, StmtCode, Patched, PostCode;
    var top := |pre|;
    var tr := TestRaw(s.test, env, top);
    var cb := StmtCode(s.loop, sc, env, top + |tr|);
    var cp := PostCode(s.post, env, top + |tr| + |cb|);
    var back := Enc(JumpTo(Always, top));
    JumpShape(IfFalse, 0);
    JumpShape(Always, top);
    Assoc(pre + tr, cb, cp + back);
    Assoc(pre, tr, cb + (cp + back));
    if s.test.Some? {
      GuardPatched(pre, ExprCode(s.test.value, env, top), cb + (cp + back), top + |tr| + |cb| + |cp| + 5);
    }
  }

  function LogicTail(isAnd: bool, done: nat): seq<byte> {
    Enc(Push(if isAnd then 0 else 1)) + (Enc(JumpTo(Always, done)) + Enc(Push(if isAnd then 1 else 0)))
  }

  lemma PatchedFrame(code: seq<byte>, at: nat, target: nat, pre: nat)
    requires at + 5 <= |code| && pre <= at
    ensures |Patched(code, at, target)| == |code|
    ensures Patched(code, at, target)[..pre] == code[..pre]
  {
  }

  /** Patching the jump behind a condition once the code it skips is known. */
  lemma GuardPatched(pre: seq<byte>, cc: seq<byte>, rest: seq<byte>, t: nat)
    ensures
      var raw := pre + ((cc + Enc(JumpTo(IfFalse, 0))) + rest);
      && |raw| == |pre| + |cc| + 5 + |rest|
      && Patched(raw, |pre| + |cc|, t) == pre + (cc + (Enc(JumpTo(IfFalse, t)) + rest))
  {
    hide Enc, JumpTo, Patched;
    JumpShape(IfFalse, 0);
    var j0, j := Enc(JumpTo(IfFalse, 0)), Enc(JumpTo(IfFalse, t));
    Assoc(cc, j0, rest);
    Assoc(pre, cc, j0 + rest);
    PatchJump(pre + cc, IfFalse, rest, t);
    Assoc(pre, cc, j + rest);
  }

  lemma IfPatched(pre: seq<byte>, cc: seq<byte>, ct: seq<byte>)
    ensures
      var raw := pre + ((cc + Enc(JumpTo(IfFalse, 0))) + ct);
      && |Enc(JumpTo(IfFalse, 0))| == 5
      && |IfLayout(cc, ct, |pre|)| == |cc| + 5 + |ct| == |raw| - |pre|
      && Patched(raw, |pre| + |cc|, |raw|) == pre + IfLayout(cc, ct, |pre|)
  {
    hide Enc, Patched;
    JumpShape(IfFalse, 0);
    JumpShape(IfFalse, |pre| + |cc| + 5 + |ct|);
    GuardPatched(pre, cc, ct, |pre| + |cc| + 5 + |ct|);
  }

  lemma ElsePatched(pre: seq<byte>, cc: seq<byte>, ct: seq<byte>, cf: seq<byte>)
    ensures
      var raw := (pre + ((cc + Enc(JumpTo(IfFalse, 0))) + ct)) + (Enc(JumpTo(Always, 0)) + cf);
      var jd := |pre| + |cc| + 5 + |ct|;
      && |Enc(JumpTo(IfFalse, 0))| == 5 && |Enc(JumpTo(Always, 0))| == 5
      && |IfElseLayout(cc, ct, cf, |pre|)| == |cc| + |ct| + |cf| + 10 == |raw| - |pre|
      && Patched(Patched(raw, |pre| + |cc|, jd + 5), jd, |raw|) == pre + IfElseLayout(cc, ct, cf, |pre|)
  {
    hide Enc, Patched;
    var t := |pre| + |cc| + 5 + |ct| + 5;
    var done := t + |cf|;
    JumpShape(IfFalse, 0);
    JumpShape(IfFalse, t);
    JumpShape(Always, 0);
    JumpShape(Always, done);
    var j0, j, a0, a := Enc(JumpTo(IfFalse, 0)), Enc(JumpTo(IfFalse, t)), Enc(JumpTo(Always, 0)),
      Enc(JumpTo(Always, done));
    Assoc(pre, (cc + j0) + ct, a0 + cf);
    Assoc(cc + j0, ct, a0 + cf);
    GuardPatched(pre, cc, ct + (a0 + cf), t);
    Regroup2(pre, cc, j, ct + (a0 + cf));
    Assoc(((pre + cc) + j), ct, a0 + cf);
    PatchJump(((pre + cc) + j) + ct, Always, cf, done);
    Assoc(((pre + cc) + j), ct, a + cf);
    Regroup2(pre, cc, j, ct + (a + cf));
  }

  lemma LoopPatched(pre: seq<byte>, cc: seq<byte>, cb: seq<byte>)
    ensures
      var raw := (pre + ((cc + Enc(JumpTo(IfFalse, 0))) + cb)) + Enc(JumpTo(Always, |pre|));
      && |Enc(JumpTo(IfFalse, 0))| == 5 && |Enc(JumpTo(Always, |pre|))| == 5
      && |WhileLayout(cc, cb, |pre|)| == |cc| + |cb| + 10 == |raw| - |pre|
      && Patched(raw, |pre| + |cc|, |raw|) == pre + WhileLayout(cc, cb, |pre|)
  {
    hide Enc, Patched;
    var back, end := Enc(JumpTo(Always, |pre|)), |pre| + |cc| + 5 + |cb| + 5;
    JumpShape(IfFalse, 0);
    JumpShape(IfFalse, end);
    JumpShape(Always, |pre|);
    Assoc(pre, (cc + Enc(JumpTo(IfFalse, 0))) + cb, back);
    Assoc(cc + Enc(JumpTo(IfFalse, 0)), cb, back);
    GuardPatched(pre, cc, cb + back, end);
  }

  lemma StrOpSize()
    ensures forall si {:trigger Enc(PushStr(si))} :: |Enc(PushStr(si))| == 5
    ensures forall si, n {:trigger Enc(CallI(si, n))} :: |Enc(CallI(si, n))| == 9
  {
  }

  lemma PushSize(v: u64)
    ensures |Enc(Push(v))| == 9
  {
  }

  lemma PadStep(f: Fn, k: nat)
    requires k < f.nargs
    ensures PadCode(PadFrom(f, k)) ==
            Enc(Push(if DefaultOf(f, k).Some? then DefaultOf(f, k).value else 0)) + PadCode(PadFrom(f, k + 1))
  {
    hide Enc;
    assert PadFrom(f, k)[1..] == PadFrom(f, k + 1);
  }

  lemma TailSize(isAnd: bool, done: nat)
    ensures |LogicTail(isAnd, done)| == 23
  {
    hide Enc, JumpTo;
    PushSize(0);
    PushSize(1);
    JumpShape(Always, done);
  }

  lemma LogicShape(ca: seq<byte>, cb: seq<byte>, isAnd: bool, pc: nat)
    ensures
      var short := pc + |ca| + 5 + |cb| + 5;
      var j := Enc(JumpTo(if isAnd then IfFalse else IfTrue, short));
      LogicCode(ca, cb, isAnd, pc) == ca + (j + (cb + (j + LogicTail(isAnd, short + 14))))
  {
    hide Enc;
  }

  /** Emitting `a && b` (or `||`) with three placeholder jumps and patching them
      afterwards gives the code with absolute targets. */
  lemma LogicPatched(pre: seq<byte>, ca: seq<byte>, cb: seq<byte>, isAnd: bool)
    ensures
      var j0 := Enc(JumpTo(if isAnd then IfFalse else IfTrue, 0));
      var j1 := |pre| + |ca|;
      var j2 := j1 + 5 + |cb|;
      var short := j2 + 5;
      var raw := (pre + ((ca + j0) + (cb + j0))) + LogicTail(isAnd, 0);
      && |LogicCode(ca, cb, isAnd, |pre|)| == |ca| + |cb| + 33 == |raw| - |pre|
      && Patched(Patched(Patched(raw, j1, short), j2, short), short + 9, short + 14)
         == pre + LogicCode(ca, cb, isAnd, |pre|)
  {
    hide Enc, Patched, JumpTo, LogicCode, Enc32, ToU32;
    var kind := if isAnd then IfFalse else IfTrue;
    var short := |pre| + |ca| + 5 + |cb| + 5;
    var j0, j := Enc(JumpTo(kind, 0)), Enc(JumpTo(kind, short));
    var a0, a := Enc(JumpTo(Always, 0)), Enc(JumpTo(Always, short + 14));
    var p, q := Enc(Push(if isAnd then 0 else 1)), Enc(Push(if isAnd then 1 else 0));
    JumpShape(kind, 0);
    JumpShape(kind, short);
    JumpShape(Always, 0);
    JumpShape(Always, short + 14);
    PushSize(if isAnd then 0 else 1);
    PushSize(if isAnd then 1 else 0);
    LogicShape(ca, cb, isAnd, |pre|);
    Regroup(pre, ca, j0, cb, j0, p + (a0 + q));
    PatchJump(pre + ca, kind, cb + (j0 + (p + (a0 + q))), short);
    Regroup2(pre + ca, j, cb, j0 + (p + (a0 + q)));
    PatchJump(pre + ca + j + cb, kind, p + (a0 + q), short);
    Regroup2(pre + ca + j + cb, j, p, a0 + q);
    PatchJump(pre + ca + j + cb + j + p, Always, q, short + 14);
    Regroup2(pre + ca + j + cb, j, p, a + q);
    Regroup2(pre + ca, j, cb, j + (p + (a + q)));
    Assoc(pre, ca, j + (cb + (j + (p + (a + q)))));
  }

  lemma Regroup(pre: seq<byte>, ca: seq<byte>, j: seq<byte>, cb: seq<byte>, k: seq<byte>, tail: seq<byte>)
    ensures (pre + ((ca + j) + (cb + k))) + tail == (pre + ca) + (j + (cb + (k + tail)))
  {
    Assoc(ca, j, cb + k);
    Assoc(cb, k, tail);
    Assoc(j, cb + k, tail);
    Assoc(ca, j + (cb + k), tail);
    Assoc(pre, ca + (j + (cb + k)), tail);
    Assoc(pre, ca, j + (cb + (k + tail)));
  }

  lemma Regroup2(a: seq<byte>, b: seq<byte>, c: seq<byte>, d: seq<byte>)
    ensures a + (b + (c + d)) == ((a + b) + c) + d
  {
    Assoc(a, b, c + d);
    Assoc(a + b, c, d);
  }

  lemma {:induction false} IndexIsFirst(ss: seq<string>, s: string, k: nat)
    requires k < |ss| && ss[k] == s && s !in ss[..k]
    ensures IndexOf(ss, s) == k
    decreases k
  {
    if k > 0 {
      assert ss[0] == ss[..k][0];
      forall i | 0 <= i < k - 1 ensures ss[1..][i] != s {
        assert ss[1..][i] == ss[..k][i + 1];
      }
      IndexIsFirst(ss[1..], s, k - 1);
    }
  }
}
