/** The VM as the kernel runs it: a fixed array for the value stack, updated in
    place, against the step function of `Vm`. */
module VmClass {
  import opened Wrappers
  import opened Word
  import opened Bytecode
  import opened Linking
  import opened Vm

  /** What is put aside while a builtin runs another program. */
  datatype Saved = Saved(vstack: seq<u64>, frames: seq<Frame>, sp: nat)

  datatype Status = Running | Finished | Stopped(e: Error) | Interrupted

  class VirtualMachine {
    const m: Machine
    var reg: seq<Fn>
    const vstack: array<u64>
    var sp: nat
    var frames: seq<Frame>
    var trace: Trace

    ghost predicate Valid()
      reads this
    {
      vstack.Length == STACK_SIZE && sp <= STACK_SIZE && reg == RegNow(m, trace)
    }

    ghost function Model(): Vm
      reads this, vstack
      requires Valid()
    {
      Vm(vstack[..sp], frames, trace)
    }

    constructor (m: Machine)
      ensures Valid() && fresh(vstack) && this.m == m
      ensures Model() == Vm([], [], [])
    {
      this.m := m;
      vstack := new u64[STACK_SIZE];
      sp, frames, trace, reg := 0, [], [], m.reg;
    }

    /** `status` and the new state are what `o` says. */
    ghost predicate Realises(status: Status, o: Outcome)
      reads this, vstack
      requires Valid()
    {
      match o
      case Run(vm) => status == Running && Model() == vm
      case Halted(vm) => status == Finished && Model() == vm
      case Failed(e, tr) => status == Stopped(e) && trace == tr
    }

    method PushValue(v: u64) returns (status: Status)
      requires Valid()
      modifies this`sp, vstack
      ensures Valid() && Realises(status, PushV(old(Model()), v))
    {
      if sp >= STACK_SIZE {
        return Stopped(StackOverflow);
      }
      vstack[sp] := v;
      sp := sp + 1;
      return Running;
    }

    method Jump(t: nat)
      requires Valid() && |frames| > 0
      modifies this`frames
      ensures Valid() && Model() == Goto(old(Model()), t)
    {
      var k := |frames| - 1;
      frames := frames[..k] + [frames[k].(pc := t)];
    }

    /** One turn of the loop. It is asked of states in which the next step stays
        inside the used stack and the code, which the VM does not check. */
    method Turn() returns (status: Status)
      requires Valid() && Checked(Step(m, Model()))
      modifies this, vstack
      ensures Valid() && Realises(status, Step(m, old(Model())))
    {
      hide Fetch, Exec;
      if |frames| == 0 {
        return Stopped(NoFrame);
      }
      var f := frames[|frames| - 1];
      match Fetch(f.fn.code, f.pc)
      case RanOff => return Stopped(RanOffEnd);
      case Unknown => return Stopped(UnknownOpcode);
      case Truncated => assert false;
      case Got(i, size) =>
        Jump(f.pc + size);
        status := Perform(i);
    }

    method Perform(i: Instr) returns (status: Status)
      requires Valid() && |frames| > 0 && Checked(Exec(m, Model(), i))
      modifies this, vstack
      ensures Valid() && Realises(status, Exec(m, old(Model()), i))
    {
      hide ExecCall, ExecRet, Alu;
      var f := frames[|frames| - 1];
      match i
      case Push(v) => status := PushValue(v);
      case PushStr(si) =>
        if si >= |f.fn.strings| {
          return Stopped(BadStringIndex);
        }
        status := PushValue(m.lit(f.fn.name, f.fn.strings[si]));
      case Dup =>
        if sp == 0 {
          return Stopped(StackUnderflow);
        }
        status := PushValue(vstack[sp - 1]);
      case Load(slot) =>
        if slot >= f.fn.nlocals {
          return Stopped(BadLocalSlot);
        }
        status := PushValue(vstack[f.vbase + slot]);
      case CallI(si, count) => status := Call(si, count);
      case Ret => status := Return();
      case Jmp(t) =>
        Jump(t);
        status := Running;
      case Arith(op) => status := Arithmetic(op);
      case Halt => status := Finished;
      case _ => status := Consume(i);
    }

    /** Instructions that pop one value. */
    method Consume(i: Instr) returns (status: Status)
      requires Valid() && |frames| > 0 && Checked(Exec(m, Model(), i))
      requires i.Pop? || i.Store? || i.JmpF? || i.JmpT? || i.NotI? || i.NegI? || i.BNotI?
      modifies this, vstack
      ensures Valid() && Realises(status, Exec(m, old(Model()), i))
    {
      hide ExecCall, ExecRet, Alu, Goto;
      if sp == 0 {
        return Stopped(StackUnderflow);
      }
      var f := frames[|frames| - 1];
      var v := vstack[sp - 1];
      ghost var before := Model();
      sp := sp - 1;
      assert Model() == Drop(before, 1);
      status := Running;
      match i
      case Pop =>
      case Store(slot) =>
        if slot >= f.fn.nlocals {
          return Stopped(BadLocalSlot);
        }
        vstack[f.vbase + slot] := v;
      case JmpF(t) =>
        if v == 0 {
          Jump(t);
        }
      case JmpT(t) =>
        if v != 0 {
          Jump(t);
        }
      case NotI => status := PushValue(if v == 0 then 1 else 0);
      case NegI => status := PushValue(Negate(v));
      case BNotI => status := PushValue(Complement(v));
    }

    method Arithmetic(op: AluOp) returns (status: Status)
      requires Valid() && |frames| > 0
      modifies this`sp, vstack
      ensures Valid() && Realises(status, Exec(m, old(Model()), Arith(op)))
    {
      hide Alu, ExecCall, ExecRet, Goto;
      if sp < 2 {
        return Stopped(StackUnderflow);
      }
      var a, b := vstack[sp - 2], vstack[sp - 1];
      ghost var before := Model();
      sp := sp - 2;
      assert Model() == Drop(before, 2);
      match Alu(op, a, b)
      case Value(r) => status := PushValue(r);
      case DivZero => status := Stopped(DivisionByZero);
      case DivFault => status := Stopped(DivideFault);
    }

    method Call(si: nat, count: nat) returns (status: Status)
      requires Valid() && |frames| > 0
      modifies this, vstack
      ensures Valid() && Realises(status, ExecCall(m, old(Model()), si, count))
    {
      hide Lookup, RegNow, NewsAt, Frees, ExecBuiltin;
      var f := frames[|frames| - 1];
      if si >= |f.fn.strings| {
        return Stopped(BadFunctionIndex);
      }
      var at := Lookup(reg, f.fn.strings[si]);
      if at.None? {
        return Stopped(UnknownFunction);
      }
      if sp < count {
        return Stopped(TooFewOnStack);
      }
      var callee := reg[at.value];
      ghost var before := Model();
      if callee.builtin.Some? {
        status := CallBuiltin(callee.builtin.value, count);
        return;
      }
      if |frames| >= MAX_FRAMES {
        return Stopped(NestTooDeep);
      }
      if callee.nlocals < count {
        return Stopped(BadCallee);
      }
      var vbase := sp - count;
      if vbase + callee.nlocals > STACK_SIZE {
        return Stopped(CallOverflow);
      }
      ClearTo(vbase + callee.nlocals);
      frames := frames + [Frame(callee, 0, vbase)];
      return Running;
    }

    /** A builtin call. Lines that it runs may change the registry; if they free
        code that is still running, what happens next is anyone's guess. */
    method CallBuiltin(k: nat, count: nat) returns (status: Status)
      requires Valid() && |frames| > 0 && count <= sp
      modifies this, vstack
      ensures Valid() && Realises(status, ExecBuiltin(m, old(Model()), k, count))
    {
      hide RegNow, Frees, RegsAfter;
      ghost var before := Model();
      var ev := Event(k, vstack[sp - count..sp]);
      assert ev.args == before.stack[sp - count..];
      var r, news := m.host(trace, ev), m.news(reg, trace, ev);
      RegNext(m, trace, ev);
      trace, reg := trace + [ev], RegsAfter(news, reg);
      if r.None? {
        return Stopped(BuiltinFailed);
      }
      if Frees(news, frames) {
        return Stopped(CodeFreed);
      }
      sp := sp - count;
      assert Model() == Drop(before.(trace := trace), count);
      status := PushValue(r.value);
    }

    /** Zero the callee's remaining slots and make them part of the stack. */
    method ClearTo(top: nat)
      requires Valid() && sp <= top <= STACK_SIZE
      modifies this`sp, vstack
      ensures Valid() && Model() == old(Model()).(stack := old(Model()).stack + Zeros(top - old(sp)))
    {
      ghost var was := vstack[..sp];
      var k := sp;
      while k < top
        invariant sp <= k <= top
        invariant vstack[..k] == was + Zeros(k - sp)
      {
        vstack[k] := 0;
        assert vstack[..k + 1] == vstack[..k] + [0];
        k := k + 1;
      }
      sp := top;
    }

    method Return() returns (status: Status)
      requires Valid() && |frames| > 0 && Checked(ExecRet(Model()))
      modifies this, vstack
      ensures Valid() && Realises(status, ExecRet(old(Model())))
    {
      if |frames| == 1 {
        return Stopped(ReturnAtTop);
      }
      if sp == 0 {
        return Stopped(StackUnderflow);
      }
      var v := vstack[sp - 1];
      ghost var before := Model();
      sp := frames[|frames| - 1].vbase;
      frames := frames[..|frames| - 1];
      assert Model() == before.(stack := before.stack[..sp], frames := frames);
      status := PushValue(v);
    }

    /** The loop. The poll of the keyboard that ends a runaway program is what
        bounds it: it is seen after `limit` turns. */
    method RunLoop(limit: nat) returns (status: Status)
      requires Valid() && forall k {:trigger Steps(m, Model(), k)} :: 0 <= k <= limit ==> Checked(Steps(m, Model(), k))
      modifies this, vstack
      ensures Valid()
      ensures var o := Steps(m, old(Model()), limit);
        if o.Run? then status == Interrupted && Model() == o.vm else Realises(status, o)
    {
      hide Step;
      ghost var vm0 := Model();
      var n := 0;
      while n < limit
        invariant n <= limit && Valid() && Steps(m, vm0, n) == Run(Model())
        decreases limit - n
      {
        StepsThen(m, vm0, n, Model(), 1);
        StepsThen(m, vm0, n, Model(), limit - n);
        StepsOne(m, Model());
        assert Checked(Steps(m, vm0, n + 1));
        ghost var o := Step(m, Model());
        status := Turn();
        if status != Running {
          StepsPrefix(m, vm0, n + 1, limit);
          return;
        }
        n := n + 1;
      }
      status := Interrupted;
    }

    /** Run a compiled chunk from a clean machine; with `keep` its first value
        above the locals is the result. */
    method RunChunk(f: Fn, keep: bool, limit: nat) returns (status: Status, result: Option<u64>)
      requires Valid() && f.nlocals < STACK_SIZE
      requires forall k {:trigger Steps(m, Vm(Zeros(f.nlocals), [Frame(f, 0, 0)], trace), k)} ::
        0 <= k <= limit ==> Checked(Steps(m, Vm(Zeros(f.nlocals), [Frame(f, 0, 0)], trace), k))
      modifies this, vstack
      ensures Valid()
      ensures var o := Steps(m, Vm(Zeros(f.nlocals), [Frame(f, 0, 0)], old(trace)), limit);
        && (if o.Run? then status == Interrupted && Model() == o.vm else Realises(status, o))
        && (result.Some? <==> keep && o.Halted?)
        && (result.Some? && |o.vm.stack| > f.nlocals ==> result.value == o.vm.stack[f.nlocals])
    {
      hide Step;
      sp, frames := 0, [];
      ClearTo(f.nlocals);
      frames := [Frame(f, 0, 0)];
      assert Model() == Vm(Zeros(f.nlocals), [Frame(f, 0, 0)], old(trace));
      status := RunLoop(limit);
      result := if keep && status == Finished then Some(vstack[f.nlocals]) else None;
    }

    /** All of the machine that a nested run would overwrite. */
    method SaveState() returns (s: Saved)
      requires Valid()
      ensures s == Saved(vstack[..], frames, sp)
    {
      s := Saved(vstack[..], frames, sp);
    }

    method RestoreState(s: Saved)
      requires Valid() && |s.vstack| == STACK_SIZE && s.sp <= STACK_SIZE
      modifies this`sp, this`frames, vstack
      ensures Valid() && vstack[..] == s.vstack
      ensures Model() == Vm(s.vstack[..s.sp], s.frames, old(trace))
    {
      var k := 0;
      while k < STACK_SIZE
        invariant k <= STACK_SIZE && vstack.Length == STACK_SIZE
        invariant vstack[..k] == s.vstack[..k]
      {
        vstack[k] := s.vstack[k];
        assert vstack[..k + 1] == vstack[..k] + [s.vstack[k]];
        k := k + 1;
      }
      assert vstack[..] == vstack[..k] && s.vstack == s.vstack[..k];
      sp, frames := s.sp, s.frames;
    }

    /** A chunk run from inside a builtin, bracketed by save and restore: the
        enclosing run finds every cell, used or not, and every frame as it left
        them, however the nested run ended. Only what builtins did stays done. */
    method RunNested(f: Fn, keep: bool, limit: nat) returns (status: Status)
      requires Valid() && f.nlocals < STACK_SIZE
      requires forall k {:trigger Steps(m, Vm(Zeros(f.nlocals), [Frame(f, 0, 0)], trace), k)} ::
        0 <= k <= limit ==> Checked(Steps(m, Vm(Zeros(f.nlocals), [Frame(f, 0, 0)], trace), k))
      modifies this, vstack
      ensures Valid() && vstack[..] == old(vstack[..])
      ensures Model() == old(Model()).(trace := trace)
      ensures var o := Steps(m, Vm(Zeros(f.nlocals), [Frame(f, 0, 0)], old(trace)), limit);
        match o
        case Run(vm) => status == Interrupted && trace == vm.trace
        case Halted(vm) => status == Finished && trace == vm.trace
        case Failed(e, tr) => status == Stopped(e) && trace == tr
    {
      hide Step;
      var s := SaveState();
      var result;
      status, result := RunChunk(f, keep, limit);
      RestoreState(s);
    }
  }

  /** The machine relies on never reaching these: it would read beyond its code
      or beyond the used part of its stack. */
  predicate Checked(o: Outcome) {
    o.Failed? ==> o.err != WildAccess && o.err != OverRead
  }
}
