/** Functions and REPL lines as a whole: what a definition adds to the registry
    and what code a line of top-level statements compiles to. */
module Linking {
  import opened Wrappers
  import opened Word
  import opened Ast
  import opened Bytecode
  import opened CodeGen
  import opened CodeGenFacts

  const MAX_FUNCS: nat := 128
  const MAX_PARAMS: nat := 15

  /** Replace the function of exactly this name, or append; fails when full. */
  function Register(reg: seq<Fn>, f: Fn): (r: Option<seq<Fn>>)
    ensures r.Some? ==> NamesGrow(reg, r.value) && f in r.value
  {
    var i := ExactIndex(reg, f.name, 0);
    if i < |reg| then Some(reg[i := f])
    else if |reg| >= MAX_FUNCS then None
    else Some(reg + [f])
  }

  function ExactIndex(reg: seq<Fn>, name: string, k: nat): (i: nat)
    requires k <= |reg|
    ensures k <= i <= |reg|
    ensures i < |reg| ==> reg[i].name == name
    decreases |reg| - k
  {
    if k == |reg| || reg[k].name == name then k else ExactIndex(reg, name, k + 1)
  }

  /** The final tables of a function body. */
  function FnEnv(params: seq<Param>, body: seq<Stmt>, reg: seq<Fn>): Env {
    var ps := ParamSyms(params);
    Env(SymsAfterAll(body, ps), StmtsStrs(body, ps, reg, []), reg)
  }

  function ParamDefaults(params: seq<Param>): seq<Option<u64>> {
    seq(|params|, i requires 0 <= i < |params| => params[i].def)
  }

  /** What compiling the definition `s` against `reg` puts into the registry. */
  function FnOf(s: Stmt, reg: seq<Fn>): Fn
    requires s.FuncDecl?
  {
    var env := FnEnv(s.params, s.body, reg);
    Fn(s.name, None, false, s.ret, |s.params|, ParamDefaults(s.params), |env.syms|, env.strs,
       FnCode(s.params, s.body, env))
  }

  predicate FnAccepted(s: Stmt, reg: seq<Fn>, limit: nat)
    requires s.FuncDecl?
  {
    && StmtsOk(s.body, ParamSyms(s.params), reg, true)
    && |FnEnv(s.params, s.body, reg).strs| <= MAX_STRINGS
    && |FnOf(s, reg).code| <= limit
    && Register(reg, FnOf(s, reg)).Some?
  }

  function RegAfter(s: Stmt, reg: seq<Fn>): seq<Fn> {
    if s.FuncDecl? && Register(reg, FnOf(s, reg)).Some? then Register(reg, FnOf(s, reg)).value else reg
  }

  function RegsAfter(stmts: seq<Stmt>, reg: seq<Fn>): seq<Fn> {
    if |stmts| == 0 then reg else RegsAfter(stmts[1..], RegAfter(stmts[0], reg))
  }

  /** The parser admits at most 15 parameters. */
  predicate ParamsFit(stmts: seq<Stmt>) {
    forall i :: 0 <= i < |stmts| && stmts[i].FuncDecl? ==> |stmts[i].params| <= MAX_PARAMS
  }

  predicate TopOk(s: Stmt, scope: seq<Sym>, reg: seq<Fn>, limit: nat) {
    if s.FuncDecl? then FnAccepted(s, reg, limit) else StmtOk(s, scope, reg, false)
  }

  predicate LineOk(stmts: seq<Stmt>, scope: seq<Sym>, reg: seq<Fn>, limit: nat)
    decreases |stmts|
  {
    |stmts| == 0 ||
    (TopOk(stmts[0], scope, reg, limit) && LineOk(stmts[1..], SymsAfter(stmts[0], scope), RegAfter(stmts[0], reg),
      limit))
  }

  function LineSyms(stmts: seq<Stmt>, scope: seq<Sym>): seq<Sym> {
    if |stmts| == 0 then scope else LineSyms(stmts[1..], SymsAfter(stmts[0], scope))
  }

  function LineStrs(stmts: seq<Stmt>, scope: seq<Sym>, reg: seq<Fn>, ss: seq<string>): seq<string> {
    if |stmts| == 0 then ss
    else LineStrs(stmts[1..], SymsAfter(stmts[0], scope), RegAfter(stmts[0], reg), StmtStrs(stmts[0], scope, reg, ss))
  }

  /** Does the line end in an expression whose value is printed? */
  predicate LineKeeps(stmts: seq<Stmt>, scope: seq<Sym>, reg: seq<Fn>)
    decreases |stmts|
  {
    if |stmts| == 0 then false
    else if |stmts| == 1 then HasValue(stmts[0], scope, reg)
    else LineKeeps(stmts[1..], SymsAfter(stmts[0], scope), RegAfter(stmts[0], reg))
  }

  /** Code of a line; `syms` and `strs` are its final tables. */
  function LineCode(stmts: seq<Stmt>, scope: seq<Sym>, syms: seq<Sym>, strs: seq<string>, reg: seq<Fn>,
      pc: nat): seq<byte>
    decreases |stmts|
  {
    if |stmts| == 0 then Enc(Halt)
    else
      var keep := |stmts| == 1 && HasValue(stmts[0], scope, reg);
      var c := TopCode(stmts[0], keep, scope, Env(syms, strs, reg), pc);
      c + LineCode(stmts[1..], SymsAfter(stmts[0], scope), syms, strs, RegAfter(stmts[0], reg), pc + |c|)
  }

  lemma {:induction false} LineStrsGrow(stmts: seq<Stmt>, scope: seq<Sym>, reg: seq<Fn>, ss: seq<string>)
    ensures ss <= LineStrs(stmts, scope, reg, ss)
    decreases |stmts|
  {
    if |stmts| > 0 {
      StmtStrsGrow(stmts[0], scope, reg, ss);
      LineStrsGrow(stmts[1..], SymsAfter(stmts[0], scope), RegAfter(stmts[0], reg), StmtStrs(stmts[0], scope, reg, ss));
    }
  }

  /** Compiling a line never removes or renames a registered function. */
  lemma {:induction false} RegsGrow(stmts: seq<Stmt>, reg: seq<Fn>)
    ensures NamesGrow(reg, RegsAfter(stmts, reg))
    decreases |stmts|
  {
    if |stmts| > 0 {
      RegsGrow(stmts[1..], RegAfter(stmts[0], reg));
    }
  }

  lemma {:induction false} RegsAfterSnoc(stmts: seq<Stmt>, s: Stmt, reg: seq<Fn>)
    ensures RegsAfter(stmts + [s], reg) == RegAfter(s, RegsAfter(stmts, reg))
    decreases |stmts|
  {
    if |stmts| == 0 {
      assert (stmts + [s])[1..] == [];
    } else {
      assert (stmts + [s])[1..] == stmts[1..] + [s];
      RegsAfterSnoc(stmts[1..], s, RegAfter(stmts[0], reg));
    }
  }

  lemma LineEmpty(scope: seq<Sym>, syms: seq<Sym>, strs: seq<string>, reg: seq<Fn>, limit: nat, pc: nat)
    ensures LineOk([], scope, reg, limit) && LineSyms([], scope) == scope && LineStrs([], scope, reg, strs) == strs
    ensures LineCode([], scope, syms, strs, reg, pc) == Enc(Halt)
    ensures RegsAfter([], reg) == reg && !LineKeeps([], scope, reg)
  {
    hide Enc;
  }

  /** One step of every line-level function; `code` has been emitted already. */
  lemma LineUnfold(stmts: seq<Stmt>, scope: seq<Sym>, reg: seq<Fn>, ss: seq<string>, S: seq<Sym>, T: seq<string>,
                   code: seq<byte>, limit: nat)
    requires |stmts| > 0
    ensures var s, rest, scope1, reg1 := stmts[0], stmts[1..], SymsAfter(stmts[0], scope), RegAfter(stmts[0], reg);
      var ss1, keep := StmtStrs(s, scope, reg, ss), |stmts| == 1 && HasValue(s, scope, reg);
      var part := TopCode(s, keep, scope, Env(S, T, reg), |code|);
      && LineOk(stmts, scope, reg, limit) == (TopOk(s, scope, reg, limit) && LineOk(rest, scope1, reg1, limit))
      && LineSyms(stmts, scope) == LineSyms(rest, scope1)
      && LineStrs(stmts, scope, reg, ss) == LineStrs(rest, scope1, reg1, ss1)
      && ss1 <= LineStrs(rest, scope1, reg1, ss1)
      && RegsAfter(stmts, reg) == RegsAfter(rest, reg1)
      && LineKeeps(stmts, scope, reg) == (keep || LineKeeps(rest, scope1, reg1))
      && |LineCode(stmts, scope, S, T, reg, |code|)| == |part| + |LineCode(rest, scope1, S, T, reg1, |code| + |part|)|
      && code + LineCode(stmts, scope, S, T, reg, |code|) == (code + part) + LineCode(rest, scope1, S, T, reg1,
         |code| + |part|)
      && (EnvLe(Env(scope1, ss1, reg), Env(S, T, reg)) <==> EnvLe(Env(scope1, ss1, reg1), Env(S, T, reg1)))
  {
    hide Enc, StmtOk, SymsAfter, RegAfter, TopOk, HasValue, TopCode, StmtStrs, SymsLe;
    LineStrsGrow(stmts[1..], SymsAfter(stmts[0], scope), RegAfter(stmts[0], reg), StmtStrs(stmts[0], scope, reg, ss));
  }
}
