/** From the tokens of a line to what it does. */
module Console {
  import opened Wrappers
  import opened Word
  import opened Ast
  import opened Grammar
  import opened RoundTrip
  import opened StmtGrammar
  import opened StmtRoundTrip
  import opened Linking
  import opened Vm
  import opened Simulation
  import opened Session
  import opened VmClass
  import opened Compiled
  import opened Shell
  import P = Parser
  import C = Compiler

  /** A line written out in tokens is read as that line. */
  lemma SaidIsRead(stmts: seq<Stmt>, ts: Toks)
    requires BodySayable(stmts) && |stmts| < MAX_NODES && ts == SayLine(stmts) + [TEof]
    ensures StmtGrammar.ParseLine(ts, 0, []) == Grammar.Ok(stmts, |ts| - 1)
  {
    hide ParseStmt, SayStmt, BodySayable, SayLine;
    assert ts[0..|SayLine(stmts)|] == SayLine(stmts);
    LineRoundTrips(stmts, ts, 0, []);
    assert [] + stmts == stmts;
  }

  /** What the parser reads, the compiler's limit on parameters admits. */
  lemma ReadFits(ts: Toks)
    ensures var r := StmtGrammar.ParseLine(ts, 0, []); r.Ok? ==> BodySayable(r.value) && ParamsFit(r.value)
  {
    hide ParseStmt, StmtSayable, BodySayable;
    EmptySayable();
    ReadSayable(ts, 0, []);
    var r := StmtGrammar.ParseLine(ts, 0, []);
    if r.Ok? { SayableFits(r.value); }
  }

  lemma EmptySayable()
    ensures BodySayable([])
  {
  }

  lemma {:induction false} ReadSayable(ts: Toks, i: nat, stmts: seq<Stmt>)
    requires i < |ts| && BodySayable(stmts)
    ensures var r := StmtGrammar.ParseLine(ts, i, stmts); r.Ok? ==> BodySayable(r.value)
    decreases |ts| - i
  {
    hide ParseStmt, StmtSayable, BodySayable;
    if ts[i] != TEof {
      ParsedStmtSayable(ts, i);
      var s := ParseStmt(ts, i);
      if s.Ok? {
        BodySayableSnoc(stmts, s.value);
        ReadSayable(ts, s.next, stmts + [s.value]);
      }
    }
  }

  lemma {:induction false} SayableFits(stmts: seq<Stmt>)
    requires BodySayable(stmts)
    ensures ParamsFit(stmts)
    decreases |stmts|
  {
    if |stmts| > 0 {
      SayableFits(stmts[1..]);
      assert forall i :: 0 < i < |stmts| ==> stmts[i] == stmts[1..][i - 1];
    }
  }

  /** With at most 512 tokens the limit on statements is never what fails. */
  lemma {:induction false} NeverTooMany(ts: Toks, i: nat, stmts: seq<Stmt>)
    requires i < |ts| <= MAX_TOKS && |stmts| <= i
    ensures StmtGrammar.ParseLine(ts, i, stmts).Fail? <==> Unreadable(ts, i)
    decreases |ts| - i
  {
    hide ParseStmt;
    if ts[i] != TEof && ParseStmt(ts, i).Ok? {
      NeverTooMany(ts, ParseStmt(ts, i).next, stmts + [ParseStmt(ts, i).value]);
    }
  }

  /** Some statement of the line from token `i` on cannot be read. */
  predicate Unreadable(ts: Toks, i: nat)
    requires i < |ts|
    decreases |ts| - i
  {
    ts[i] != TEof && (ParseStmt(ts, i).Fail? || Unreadable(ts, ParseStmt(ts, i).next))
  }

  datatype Verdict = Unread | Read(report: Report)

  /** `noc_exec_line` after the lexer: parse, compile, run. For every line that
      can be said at all, saying it makes exactly that line run: what is reported
      is what the documentation says it means, in the leak-free part. */
  method ExecuteTokens(toks: Toks, m: Machine, ghost defs: seq<FnDef>, limit: nat, turns: nat) returns (v: Verdict)
    requires WorldOk(World(m, defs)) && limit <= C.MAX_CODE && NewsOk(m, limit) && |toks| <= MAX_TOKS
    ensures v.Unread? <==> Unreadable(toks, 0)
    ensures forall stmts :: BodySayable(stmts) && |stmts| < MAX_NODES && toks == SayLine(stmts) + [TEof] ==>
      && v.Read? && (v.report.Rejected? <==> !LineAccepted(stmts, m.reg, limit))
      && (v.report.Ran? && v.report.status == Finished && Documented(stmts, World(m, defs)) ==>
            var d := LineMeaning(stmts, World(m, defs), [], turns + 1); d.Prints? && v.report.printed == Shown(d.value))
  {
    hide WorldOk, BodySayable, SayLine, Unreadable, LineAccepted, Documented, StmtGrammar.ParseLine;
    NeverTooMany(toks, 0, []);
    ReadFits(toks);
    var p := new P.Parser(toks);
    var r := p.ParseLine();
    if r.None? {
      v := Unread;
    } else {
      var report := ExecuteLine(r.value, m, defs, limit, turns);
      v := Read(report);
    }
    forall stmts | BodySayable(stmts) && |stmts| < MAX_NODES && toks == SayLine(stmts) + [TEof]
      ensures r == Some(stmts)
    {
      SaidIsRead(stmts, toks);
    }
  }
}
