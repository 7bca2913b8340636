/** Machine states seen from the running frame: what lies below it, its locals,
    and its operands. Here each instruction acts on operands alone. */
module Config {
  import opened Word
  import opened Bytecode
  import opened Vm

  /** The part of the state the running function cannot touch. */
  datatype Cx = Cx(fn: Fn, callers: seq<Frame>, below: seq<u64>)

  function Conf(cx: Cx, pc: nat, locals: seq<u64>, ops: seq<u64>, tr: Trace): Vm {
    Vm(cx.below + (locals + ops), cx.callers + [Frame(cx.fn, pc, |cx.below|)], tr)
  }

  predicate Full(cx: Cx, locals: seq<u64>, ops: seq<u64>) {
    |cx.below| + |locals| + |ops| >= STACK_SIZE
  }

  function ConfPush(cx: Cx, pc: nat, locals: seq<u64>, ops: seq<u64>, tr: Trace, v: u64): Outcome {
    if Full(cx, locals, ops) then Failed(StackOverflow, tr) else Run(Conf(cx, pc, locals, ops + [v], tr))
  }

  /** How many operands an instruction takes, and which need a closer look. */
  predicate Ready(cx: Cx, i: Instr, locals: seq<u64>, ops: seq<u64>) {
    match i
    case Push(_) => true
    case PushStr(si) => si < |cx.fn.strings|
    case Dup => |ops| >= 1
    case Pop => |ops| >= 1
    case Load(s) => s < |locals|
    case Store(s) => s < |locals| && |ops| >= 1
    case Jmp(_) => true
    case JmpF(_) => |ops| >= 1
    case JmpT(_) => |ops| >= 1
    case Arith(_) => |ops| >= 2
    case NotI => |ops| >= 1
    case NegI => |ops| >= 1
    case BNotI => |ops| >= 1
    case _ => false
  }

  function Top(ops: seq<u64>): u64
    requires |ops| >= 1
  {
    ops[|ops| - 1]
  }

  function Init(ops: seq<u64>): seq<u64>
    requires |ops| >= 1
  {
    ops[..|ops| - 1]
  }

  /** What `i` does to locals and operands; `pc` is already behind it. */
  function ConfExec(m: Machine, cx: Cx, pc: nat, locals: seq<u64>, ops: seq<u64>, tr: Trace, i: Instr): Outcome
    requires Ready(cx, i, locals, ops)
  {
    match i
    case Push(v) => ConfPush(cx, pc, locals, ops, tr, v)
    case PushStr(si) => ConfPush(cx, pc, locals, ops, tr, m.lit(cx.fn.name, cx.fn.strings[si]))
    case Dup => ConfPush(cx, pc, locals, ops, tr, Top(ops))
    case Pop => Run(Conf(cx, pc, locals, Init(ops), tr))
    case Load(s) => ConfPush(cx, pc, locals, ops, tr, locals[s])
    case Store(s) => Run(Conf(cx, pc, locals[s := Top(ops)], Init(ops), tr))
    case Jmp(t) => Run(Conf(cx, t, locals, ops, tr))
    case JmpF(t) => Run(Conf(cx, if Top(ops) == 0 then t else pc, locals, Init(ops), tr))
    case JmpT(t) => Run(Conf(cx, if Top(ops) != 0 then t else pc, locals, Init(ops), tr))
    case Arith(op) =>
      (match Alu(op, Top(Init(ops)), Top(ops))
       case Value(r) => ConfPush(cx, pc, locals, Init(Init(ops)), tr, r)
       case DivZero => Failed(DivisionByZero, tr)
       case DivFault => Failed(DivideFault, tr))
    case NotI => ConfPush(cx, pc, locals, Init(ops), tr, Bool64(Top(ops) == 0))
    case NegI => ConfPush(cx, pc, locals, Init(ops), tr, Negate(Top(ops)))
    case BNotI => ConfPush(cx, pc, locals, Init(ops), tr, Complement(Top(ops)))
  }

  lemma ConfFetch(m: Machine, cx: Cx, pc: nat, locals: seq<u64>, ops: seq<u64>, tr: Trace, i: Instr)
    requires At(cx.fn.code, pc, Enc(i))
    ensures Step(m, Conf(cx, pc, locals, ops, tr)) == Exec(m, Conf(cx, pc + |Enc(i)|, locals, ops, tr), i)
  {
    hide Enc, Fetch, Exec;
    FetchEnc(cx.fn.code, pc, i);
    var vm := Conf(cx, pc, locals, ops, tr);
    assert vm.frames[..|vm.frames| - 1] == cx.callers;
  }

  lemma ConfGoto(cx: Cx, pc: nat, t: nat, locals: seq<u64>, ops: seq<u64>, tr: Trace)
    ensures Goto(Conf(cx, pc, locals, ops, tr), t) == Conf(cx, t, locals, ops, tr)
  {
    var vm := Conf(cx, pc, locals, ops, tr);
    assert vm.frames[..|vm.frames| - 1] == cx.callers;
  }

  lemma ConfDrop(cx: Cx, pc: nat, locals: seq<u64>, ops: seq<u64>, tr: Trace)
    requires |ops| >= 1
    ensures Peek(Conf(cx, pc, locals, ops, tr), 0) == Top(ops)
    ensures Drop(Conf(cx, pc, locals, ops, tr), 1) == Conf(cx, pc, locals, Init(ops), tr)
  {
    var vm := Conf(cx, pc, locals, ops, tr);
    assert vm.stack[..|vm.stack| - 1] == cx.below + (locals + Init(ops));
  }

  lemma ConfPushV(cx: Cx, pc: nat, locals: seq<u64>, ops: seq<u64>, tr: Trace, v: u64)
    ensures PushV(Conf(cx, pc, locals, ops, tr), v) == ConfPush(cx, pc, locals, ops, tr, v)
  {
    assert cx.below + (locals + ops) + [v] == cx.below + (locals + (ops + [v]));
  }

  lemma ConfStore(cx: Cx, pc: nat, locals: seq<u64>, ops: seq<u64>, tr: Trace, s: nat, v: u64)
    requires s < |locals|
    ensures (cx.below + (locals + ops))[|cx.below| + s := v] == cx.below + (locals[s := v] + ops)
  {
  }

  lemma ConfArith(m: Machine, cx: Cx, pc: nat, locals: seq<u64>, ops: seq<u64>, tr: Trace, op: AluOp)
    requires |ops| >= 2
    ensures Exec(m, Conf(cx, pc, locals, ops, tr), Arith(op)) == ConfExec(m, cx, pc, locals, ops, tr, Arith(op))
  {
    hide Alu;
    var vm := Conf(cx, pc, locals, ops, tr);
    ConfDrop(cx, pc, locals, ops, tr);
    ConfDrop(cx, pc, locals, Init(ops), tr);
    assert Drop(vm, 2) == Drop(Drop(vm, 1), 1);
    assert Peek(vm, 1) == Peek(Drop(vm, 1), 0);
    match Alu(op, Top(Init(ops)), Top(ops))
    case Value(r) => ConfPushV(cx, pc, locals, Init(Init(ops)), tr, r);
    case _ =>
  }

  lemma ConfUnary(m: Machine, cx: Cx, pc: nat, locals: seq<u64>, ops: seq<u64>, tr: Trace, i: Instr)
    requires (i.NotI? || i.NegI? || i.BNotI? || i.Dup? || i.Pop? || i.JmpF? || i.JmpT?) && |ops| >= 1
    ensures Exec(m, Conf(cx, pc, locals, ops, tr), i) == ConfExec(m, cx, pc, locals, ops, tr, i)
  {
    hide Alu, ExecCall, ExecRet, Goto, Drop, Peek, PushV, ConfPush, Conf;
    ConfSize(cx, pc, locals, ops, tr);
    ConfDrop(cx, pc, locals, ops, tr);
    match i
    case NotI => ConfPushV(cx, pc, locals, Init(ops), tr, Bool64(Top(ops) == 0));
    case NegI => ConfPushV(cx, pc, locals, Init(ops), tr, Negate(Top(ops)));
    case BNotI => ConfPushV(cx, pc, locals, Init(ops), tr, Complement(Top(ops)));
    case Dup => ConfPushV(cx, pc, locals, ops, tr, Top(ops));
    case Pop =>
    case JmpF(t) => ConfGoto(cx, pc, t, locals, Init(ops), tr);
    case JmpT(t) => ConfGoto(cx, pc, t, locals, Init(ops), tr);
  }

  lemma ConfSize(cx: Cx, pc: nat, locals: seq<u64>, ops: seq<u64>, tr: Trace)
    ensures var vm := Conf(cx, pc, locals, ops, tr);
      && |vm.stack| == |cx.below| + |locals| + |ops|
      && |vm.frames| == |cx.callers| + 1
      && vm.frames[|vm.frames| - 1] == Frame(cx.fn, pc, |cx.below|)
      && vm.trace == tr
  {
  }

  lemma ConfOther(m: Machine, cx: Cx, pc: nat, locals: seq<u64>, ops: seq<u64>, tr: Trace, i: Instr)
    requires i.Push? || i.PushStr? || i.Load? || i.Store? || i.Jmp?
    requires Ready(cx, i, locals, ops) && |locals| == cx.fn.nlocals
    ensures Exec(m, Conf(cx, pc, locals, ops, tr), i) == ConfExec(m, cx, pc, locals, ops, tr, i)
  {
    hide Alu, ExecCall, ExecRet, Goto, PushV, ConfPush, Drop;
    ConfSize(cx, pc, locals, ops, tr);
    match i
    case Push(v) => ConfPushV(cx, pc, locals, ops, tr, v);
    case PushStr(si) => ConfPushV(cx, pc, locals, ops, tr, m.lit(cx.fn.name, cx.fn.strings[si]));
    case Load(s) => ConfPushV(cx, pc, locals, ops, tr, locals[s]);
    case Store(s) =>
      ConfDrop(cx, pc, locals, ops, tr);
      ConfStore(cx, pc, locals, Init(ops), tr, s, Top(ops));
      var vm := Conf(cx, pc, locals, ops, tr);
      assert vm.stack[..|vm.stack| - 1] == cx.below + (locals + Init(ops));
    case Jmp(t) => ConfGoto(cx, pc, t, locals, ops, tr);
  }

  /** One machine step on an instruction that stays in its frame. */
  lemma ConfStep(m: Machine, cx: Cx, pc: nat, locals: seq<u64>, ops: seq<u64>, tr: Trace, i: Instr)
    requires At(cx.fn.code, pc, Enc(i))
    requires Ready(cx, i, locals, ops) && |locals| == cx.fn.nlocals
    ensures Step(m, Conf(cx, pc, locals, ops, tr)) == ConfExec(m, cx, pc + |Enc(i)|, locals, ops, tr, i)
  {
    hide Enc, Exec, ConfExec, Step, Conf;
    ConfFetch(m, cx, pc, locals, ops, tr, i);
    if i.Arith? {
      ConfArith(m, cx, pc + |Enc(i)|, locals, ops, tr, i.op);
    } else if i.Push? || i.PushStr? || i.Load? || i.Store? || i.Jmp? {
      ConfOther(m, cx, pc + |Enc(i)|, locals, ops, tr, i);
    } else {
      ConfUnary(m, cx, pc + |Enc(i)|, locals, ops, tr, i);
    }
  }
}
