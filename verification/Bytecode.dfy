/** The NOC instruction set, its byte encoding, and compiled functions. */
module Bytecode {
  import opened Wrappers
  import opened Word

  datatype Instr =
    | Push(v: u64)
    | PushStr(si: u32)
    | Dup
    | Pop
    | Load(slot: u32)
    | Store(slot: u32)
    | CallI(si: u32, count: u32)
    | Ret
    | Jmp(target: u32)
    | JmpF(target: u32)
    | JmpT(target: u32)
    | Arith(op: AluOp)
    | NotI
    | NegI
    | BNotI
    | Halt

  function AluCode(op: AluOp): byte {
    match op
    case Add => 11 case Sub => 12 case Mul => 13 case Div => 14 case Mod => 15
    case Eq => 16 case Ne => 17 case Lt => 18 case Le => 19 case Gt => 20 case Ge => 21
    case BAnd => 22 case BOr => 23 case BXor => 24 case Shl => 25 case Shr => 26
  }

  function AluOf(code: byte): AluOp
    requires 11 <= code <= 26
  {
    [Add, Sub, Mul, Div, Mod, Eq, Ne, Lt, Le, Gt, Ge, BAnd, BOr, BXor, Shl, Shr][code - 11]
  }

  function OpCode(i: Instr): byte {
    match i
    case Push(_) => 0 case PushStr(_) => 1 case Dup => 2 case Pop => 3
    case Load(_) => 4 case Store(_) => 5 case CallI(_, _) => 6 case Ret => 7
    case Jmp(_) => 8 case JmpF(_) => 9 case JmpT(_) => 10
    case Arith(op) => AluCode(op)
    case NotI => 27 case NegI => 28 case BNotI => 29 case Halt => 30
  }

  function Operands(i: Instr): seq<byte> {
    match i
    case Push(v) => Enc64(v)
    case PushStr(si) => Enc32(si)
    case Load(s) => Enc32(s)
    case Store(s) => Enc32(s)
    case CallI(si, n) => Enc32(si) + Enc32(n)
    case Jmp(t) => Enc32(t)
    case JmpF(t) => Enc32(t)
    case JmpT(t) => Enc32(t)
    case _ => []
  }

  function Enc(i: Instr): (s: seq<byte>)
    ensures |s| >= 1
  {
    [OpCode(i)] + Operands(i)
  }

  datatype Fetched = Got(i: Instr, size: nat) | RanOff | Unknown | Truncated

  function OperandSize(op: byte): nat {
    if op == 0 || op == 6 then 8
    else if op == 1 || op == 4 || op == 5 || 8 <= op <= 10 then 4
    else 0
  }

  /** The instruction the VM reads at `pc`. `Truncated` is an operand that
      reaches past the end of the code, which the VM does not check for. */
  function Fetch(code: seq<byte>, pc: nat): Fetched {
    if pc >= |code| then RanOff
    else
      var op := code[pc];
      if op > 30 then Unknown
      else if pc + 1 + OperandSize(op) > |code| then Truncated
      else Got(Decode(op, code[pc + 1..pc + 1 + OperandSize(op)]), 1 + OperandSize(op))
  }

  function Decode(op: byte, s: seq<byte>): Instr
    requires op <= 30 && |s| == OperandSize(op)
  {
    if op == 0 then Push(Dec64(s))
    else if op == 1 then PushStr(Dec32(s))
    else if op == 2 then Dup
    else if op == 3 then Pop
    else if op == 4 then Load(Dec32(s))
    else if op == 5 then Store(Dec32(s))
    else if op == 6 then CallI(Dec32(s[..4]), Dec32(s[4..]))
    else if op == 7 then Ret
    else if op == 8 then Jmp(Dec32(s))
    else if op == 9 then JmpF(Dec32(s))
    else if op == 10 then JmpT(Dec32(s))
    else if op <= 26 then Arith(AluOf(op))
    else if op == 27 then NotI
    else if op == 28 then NegI
    else if op == 29 then BNotI
    else Halt
  }

  lemma DecodeEnc(i: Instr)
    ensures OpCode(i) <= 30 && |Operands(i)| == OperandSize(OpCode(i))
    ensures Decode(OpCode(i), Operands(i)) == i
  {
    match i
    case Push(v) => Dec64Enc64(v);
    case PushStr(si) => Dec32Enc32(si);
    case Load(s) => Dec32Enc32(s);
    case Store(s) => Dec32Enc32(s);
    case CallI(si, n) =>
      Dec32Enc32(si);
      Dec32Enc32(n);
      assert Operands(i)[..4] == Enc32(si);
      assert Operands(i)[4..] == Enc32(n);
    case Jmp(t) => Dec32Enc32(t);
    case JmpF(t) => Dec32Enc32(t);
    case JmpT(t) => Dec32Enc32(t);
    case _ =>
  }

  /** `part` is the piece of code that starts at `pc`. */
  predicate At(code: seq<byte>, pc: nat, part: seq<byte>) {
    pc + |part| <= |code| && code[pc..pc + |part|] == part
  }

  /** Decoding inverts encoding wherever the encoding is placed. */
  lemma FetchEnc(code: seq<byte>, pc: nat, i: Instr)
    requires At(code, pc, Enc(i))
    ensures Fetch(code, pc) == Got(i, |Enc(i)|)
  {
    DecodeEnc(i);
    var s := code[pc..pc + |Enc(i)|];
    assert code[pc] == s[0];
    assert code[pc + 1..pc + |Enc(i)|] == s[1..] == Operands(i);
  }

  lemma AtSplit(code: seq<byte>, pc: nat, a: seq<byte>, b: seq<byte>)
    requires At(code, pc, a + b)
    ensures At(code, pc, a) && At(code, pc + |a|, b)
  {
    var s := code[pc..pc + |a + b|];
    assert a == s[..|a|] == code[pc..pc + |a|];
    assert b == s[|a|..] == code[pc + |a|..pc + |a| + |b|];
  }

  /** A function in the registry: a builtin, or compiled code. `defaults[k]` is
      the default of parameter k, if it has one. */
  datatype Fn = Fn(
    name: string,
    builtin: Option<nat>,
    variadic: bool,
    ret: nat,
    nargs: nat,
    defaults: seq<Option<u64>>,
    nlocals: nat,
    strings: seq<string>,
    code: seq<byte>)

  function LowerChar(c: char): char {
    if 'A' <= c <= 'Z' then c - 'A' + 'a' else c
  }

  function Lower(s: string): string {
    seq(|s|, i requires 0 <= i < |s| => LowerChar(s[i]))
  }

  /** Index of the first function whose name matches, ignoring case. */
  function LookupFrom(reg: seq<Fn>, name: string, k: nat): (r: Option<nat>)
    requires k <= |reg|
    ensures r.Some? ==> k <= r.value < |reg| && Lower(reg[r.value].name) == Lower(name)
    decreases |reg| - k
  {
    if k == |reg| then None
    else if Lower(reg[k].name) == Lower(name) then Some(k)
    else LookupFrom(reg, name, k + 1)
  }

  function Lookup(reg: seq<Fn>, name: string): (r: Option<nat>)
    ensures r.Some? ==> r.value < |reg|
  {
    LookupFrom(reg, name, 0)
  }

  /** Registries only grow, and redefinition keeps a name in its place. */
  predicate NamesGrow(old_: seq<Fn>, new_: seq<Fn>) {
    |old_| <= |new_| && forall i :: 0 <= i < |old_| ==> old_[i].name == new_[i].name
  }

  lemma {:induction false} LookupStableFrom(r1: seq<Fn>, r2: seq<Fn>, name: string, k: nat)
    requires NamesGrow(r1, r2) && k <= |r1|
    requires LookupFrom(r1, name, k).Some?
    ensures LookupFrom(r2, name, k) == LookupFrom(r1, name, k)
    decreases |r1| - k
  {
    assert r1[k].name == r2[k].name;
    if Lower(r1[k].name) != Lower(name) {
      LookupStableFrom(r1, r2, name, k + 1);
    }
  }

  /** A name that resolved when a call was compiled resolves to the same
      registry slot for the rest of the session. */
  lemma LookupStable(r1: seq<Fn>, r2: seq<Fn>, name: string)
    requires NamesGrow(r1, r2) && Lookup(r1, name).Some?
    ensures Lookup(r2, name) == Lookup(r1, name)
  {
    LookupStableFrom(r1, r2, name, 0);
  }
}
