/** The NOC stack machine: one shared value stack, call frames that address it
    through `vbase`, and code as bytes. `Step` is one turn of the VM's loop. */
module Vm {
  import opened Wrappers
  import opened Word
  import opened Ast
  import opened Bytecode
  import opened Linking

  const STACK_SIZE: nat := 4096
  const MAX_FRAMES: nat := 256

  /** A builtin call as the outside world sees it. */
  datatype Event = Event(builtin: nat, args: seq<u64>)

  type Trace = seq<Event>

  /** What the VM runs against: the registry as the run starts, the builtins
      (their result may depend on everything called before; `None` is failure),
      the definitions that a builtin call compiles against the registry it finds,
      by running lines of its own,
      and the addresses of string literals, by function and text. */
  datatype Machine = Machine(
    reg: seq<Fn>,
    host: (Trace, Event) -> Option<u64>,
    news: (seq<Fn>, Trace, Event) -> seq<Stmt>,
    lit: (string, string) -> u64)

  /** The registry at this point of the run. */
  function RegNow(m: Machine, tr: Trace): seq<Fn> {
    if |tr| == 0 then m.reg
    else
      var before := tr[..|tr| - 1];
      RegsAfter(m.news(RegNow(m, before), before, tr[|tr| - 1]), RegNow(m, before))
  }

  /** What builtin call `ev` defines at this point of the run. */
  function NewsAt(m: Machine, tr: Trace, ev: Event): seq<Stmt> { m.news(RegNow(m, tr), tr, ev) }

  lemma RegNext(m: Machine, tr: Trace, ev: Event)
    ensures RegNow(m, tr + [ev]) == RegsAfter(NewsAt(m, tr, ev), RegNow(m, tr))
  {
    assert (tr + [ev])[..|tr|] == tr;
  }

  /** Do these definitions replace a function that is still running? Compiling
      one frees the code of the function of exactly that name. The frame at the
      bottom is the line itself, which is no function. */
  predicate Frees(news: seq<Stmt>, frames: seq<Frame>) {
    exists i, k :: 0 <= i < |news| && news[i].FuncDecl? && 1 <= k < |frames| && news[i].name == frames[k].fn.name
  }

  datatype Frame = Frame(fn: Fn, pc: nat, vbase: nat)

  /** `stack` is the used part of the value stack; its length is `sp`. */
  datatype Vm = Vm(stack: seq<u64>, frames: seq<Frame>, trace: Trace)

  datatype Error =
    | RanOffEnd | UnknownOpcode | OverRead | NoFrame | StackUnderflow
    | BadStringIndex | BadLocalSlot | BadFunctionIndex | UnknownFunction
    | TooFewOnStack | ReturnAtTop | WildAccess
    | StackOverflow | NestTooDeep | CallOverflow
    | BadCallee | BuiltinFailed | DivisionByZero | DivideFault
    | CodeFreed

  /** The machine ran out of its fixed-size stacks. */
  predicate IsOverflow(e: Error) {
    e in {StackOverflow, NestTooDeep, CallOverflow}
  }

  /** Errors a program can raise by what it computes. */
  predicate IsRuntime(e: Error) {
    e in {BadCallee, BuiltinFailed, DivisionByZero, DivideFault}
  }

  /** What ends a run without the program's doing: a full stack, or code freed
      under a running function, from where on anything may happen. */
  predicate IsExcuse(e: Error) { IsOverflow(e) || e == CodeFreed }

  datatype Outcome =
    | Run(vm: Vm)
    | Halted(vm: Vm)
    | Failed(err: Error, trace: Trace)

  function Fail(vm: Vm, e: Error): Outcome {
    Failed(e, vm.trace)
  }

  /** `vm` with the program counter of its running frame at `pc`. */
  function Goto(vm: Vm, pc: nat): Vm
    requires |vm.frames| > 0
  {
    var k := |vm.frames| - 1;
    vm.(frames := vm.frames[..k] + [vm.frames[k].(pc := pc)])
  }

  function PushV(vm: Vm, v: u64): Outcome {
    if |vm.stack| >= STACK_SIZE then Fail(vm, StackOverflow) else Run(vm.(stack := vm.stack + [v]))
  }

  function Drop(vm: Vm, n: nat): Vm
    requires n <= |vm.stack|
  {
    vm.(stack := vm.stack[..|vm.stack| - n])
  }

  /** The value `k` cells below the top. */
  function Peek(vm: Vm, k: nat): u64
    requires k < |vm.stack|
  {
    vm.stack[|vm.stack| - 1 - k]
  }

  function Step(m: Machine, vm: Vm): Outcome {
    if |vm.frames| == 0 then Fail(vm, NoFrame)
    else
      var f := vm.frames[|vm.frames| - 1];
      match Fetch(f.fn.code, f.pc)
      case RanOff => Fail(vm, RanOffEnd)
      case Unknown => Fail(vm, UnknownOpcode)
      case Truncated => Fail(vm, OverRead)
      case Got(i, size) => Exec(m, Goto(vm, f.pc + size), i)
  }

  /** Execute `i`; the program counter is already behind it. */
  function Exec(m: Machine, vm: Vm, i: Instr): Outcome
    requires |vm.frames| > 0
  {
    var f := vm.frames[|vm.frames| - 1];
    var n := |vm.stack|;
    match i
    case Push(v) => PushV(vm, v)
    case PushStr(si) =>
      if si >= |f.fn.strings| then Fail(vm, BadStringIndex)
      else PushV(vm, m.lit(f.fn.name, f.fn.strings[si]))
    case Dup => if n == 0 then Fail(vm, StackUnderflow) else PushV(vm, Peek(vm, 0))
    case Pop => if n == 0 then Fail(vm, StackUnderflow) else Run(Drop(vm, 1))
    case Load(slot) =>
      if slot >= f.fn.nlocals then Fail(vm, BadLocalSlot)
      else if f.vbase + slot >= n then Fail(vm, WildAccess)
      else PushV(vm, vm.stack[f.vbase + slot])
    case Store(slot) =>
      if n == 0 then Fail(vm, StackUnderflow)
      else if slot >= f.fn.nlocals then Fail(vm, BadLocalSlot)
      else if f.vbase + slot >= n - 1 then Fail(vm, WildAccess)
      else Run(vm.(stack := vm.stack[..n - 1][f.vbase + slot := Peek(vm, 0)]))
    case CallI(si, count) => ExecCall(m, vm, si, count)
    case Ret => ExecRet(vm)
    case Jmp(t) => Run(Goto(vm, t))
    case JmpF(t) =>
      if n == 0 then Fail(vm, StackUnderflow)
      else Run(if Peek(vm, 0) == 0 then Goto(Drop(vm, 1), t) else Drop(vm, 1))
    case JmpT(t) =>
      if n == 0 then Fail(vm, StackUnderflow)
      else Run(if Peek(vm, 0) != 0 then Goto(Drop(vm, 1), t) else Drop(vm, 1))
    case Arith(op) =>
      if n < 2 then Fail(vm, StackUnderflow)
      else (match Alu(op, Peek(vm, 1), Peek(vm, 0))
        case Value(r) => PushV(Drop(vm, 2), r)
        case DivZero => Fail(vm, DivisionByZero)
        case DivFault => Fail(vm, DivideFault))
    case NotI => if n == 0 then Fail(vm, StackUnderflow) else PushV(Drop(vm, 1), Bool64(Peek(vm, 0) == 0))
    case NegI => if n == 0 then Fail(vm, StackUnderflow) else PushV(Drop(vm, 1), Negate(Peek(vm, 0)))
    case BNotI => if n == 0 then Fail(vm, StackUnderflow) else PushV(Drop(vm, 1), Complement(Peek(vm, 0)))
    case Halt => Halted(vm)
  }

  function Zeros(n: nat): seq<u64> {
    seq(n, _ => 0)
  }

  function ExecCall(m: Machine, vm: Vm, si: nat, count: nat): Outcome
    requires |vm.frames| > 0
  {
    var f := vm.frames[|vm.frames| - 1];
    var n := |vm.stack|;
    if si >= |f.fn.strings| then Fail(vm, BadFunctionIndex)
    else match Lookup(RegNow(m, vm.trace), f.fn.strings[si])
      case None => Fail(vm, UnknownFunction)
      case Some(idx) =>
        if n < count then Fail(vm, TooFewOnStack)
        else
          var callee := RegNow(m, vm.trace)[idx];
          match callee.builtin
          case Some(k) => ExecBuiltin(m, vm, k, count)
          case None =>
            if |vm.frames| >= MAX_FRAMES then Fail(vm, NestTooDeep)
            else if callee.nlocals < count then Fail(vm, BadCallee)
            else if n - count + callee.nlocals > STACK_SIZE then Fail(vm, CallOverflow)
            else Run(vm.(stack := vm.stack + Zeros(callee.nlocals - count),
                         frames := vm.frames + [Frame(callee, 0, n - count)]))
  }

  function ExecBuiltin(m: Machine, vm: Vm, k: nat, count: nat): Outcome
    requires count <= |vm.stack|
  {
    var ev := Event(k, vm.stack[|vm.stack| - count..]);
    var vm1 := vm.(trace := vm.trace + [ev]);
    match m.host(vm.trace, ev)
    case None => Fail(vm1, BuiltinFailed)
    case Some(r) =>
      if Frees(NewsAt(m, vm.trace, ev), vm.frames) then Fail(vm1, CodeFreed) else PushV(Drop(vm1, count), r)
  }

  /** Give the caller the top value in place of everything above `vbase`. */
  function ExecRet(vm: Vm): Outcome
    requires |vm.frames| > 0
  {
    var k := |vm.frames| - 1;
    if k == 0 then Fail(vm, ReturnAtTop)
    else if |vm.stack| == 0 then Fail(vm, StackUnderflow)
    else if vm.frames[k].vbase > |vm.stack| then Fail(vm, WildAccess)
    else PushV(vm.(stack := vm.stack[..vm.frames[k].vbase], frames := vm.frames[..k]), Peek(vm, 0))
  }

  /** `n` turns of the loop, or fewer if it stops. */
  function Steps(m: Machine, vm: Vm, n: nat): Outcome
    decreases n
  {
    if n == 0 then Run(vm)
    else match Step(m, vm)
      case Run(vm1) => Steps(m, vm1, n - 1)
      case o => o
  }

  /** Runs compose. */
  lemma {:induction false} StepsThen(m: Machine, vm: Vm, a: nat, vm1: Vm, b: nat)
    requires Steps(m, vm, a) == Run(vm1)
    ensures Steps(m, vm, a + b) == Steps(m, vm1, b)
    decreases a
  {
    hide Step;
    if a > 0 {
      StepsThen(m, Step(m, vm).vm, a - 1, vm1, b);
    }
  }

  /** A machine still running after `b` turns was running after every a <= b,
      and one that has stopped stays as it was. */
  lemma {:induction false} StepsPrefix(m: Machine, vm: Vm, a: nat, b: nat)
    requires a <= b
    ensures Steps(m, vm, a).Run? || Steps(m, vm, b) == Steps(m, vm, a)
    ensures Steps(m, vm, b).Run? ==> Steps(m, vm, a).Run?
    decreases a
  {
    hide Step;
    if a > 0 && Step(m, vm).Run? {
      StepsPrefix(m, Step(m, vm).vm, a - 1, b - 1);
    }
  }

  lemma StepsZero(m: Machine, vm: Vm)
    ensures Steps(m, vm, 0) == Run(vm)
  {
  }

  lemma StepsOne(m: Machine, vm: Vm)
    ensures Steps(m, vm, 1) == Step(m, vm)
  {
    hide Step;
    if Step(m, vm).Run? {
      assert Steps(m, Step(m, vm).vm, 0) == Step(m, vm);
    }
  }
}
