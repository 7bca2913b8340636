/** Machine words of the NOC virtual machine: 64-bit values, 32-bit operands and
    bytes, their little-endian encodings, and the arithmetic the VM performs. */
module Word {

  const TWO32: int := 0x1_0000_0000
  const TWO63: int := 0x8000_0000_0000_0000
  const TWO64: int := 0x1_0000_0000_0000_0000

  type byte = x: int | 0 <= x < 256
  type u32 = x: int | 0 <= x < 0x1_0000_0000
  type u64 = x: int | 0 <= x < 0x1_0000_0000_0000_0000


  /** Truncating cast of a size to `u32`. */
  function ToU32(x: nat): u32 {
    x % TWO32
  }

  /** Two's complement wrap-around of any integer to 64 bits. */
  function Wrap(x: int): u64 {
    x % TWO64
  }

  /** The signed reading of a 64-bit word. */
  function Signed(a: u64): int {
    if a < TWO63 then a else a - TWO64
  }

  // ---- little-endian operands ----

  function Enc32(v: u32): (s: seq<byte>)
    ensures |s| == 4
  {
    [v % 256, v / 256 % 256, v / 65536 % 256, v / 16777216]
  }

  function Dec32(s: seq<byte>): u32
    requires |s| == 4
  {
    var b0: int, b1: int, b2: int, b3: int := s[0], s[1], s[2], s[3];
    b0 + 256 * b1 + 65536 * b2 + 16777216 * b3
  }

  function Enc64(v: u64): (s: seq<byte>)
    ensures |s| == 8
  {
    Enc32(v % TWO32) + Enc32(v / TWO32)
  }

  function Dec64(s: seq<byte>): u64
    requires |s| == 8
  {
    Dec32(s[..4]) + TWO32 * Dec32(s[4..])
  }

  lemma Dec32Enc32(v: u32)
    ensures Dec32(Enc32(v)) == v
  {
    assert v / 256 == 256 * (v / 65536) + v / 256 % 256;
    assert v / 65536 == 256 * (v / 16777216) + v / 65536 % 256;
  }

  lemma Dec64Enc64(v: u64)
    ensures Dec64(Enc64(v)) == v
  {
    Dec32Enc32(v % TWO32);
    Dec32Enc32(v / TWO32);
    var s := Enc64(v);
    assert s[..4] == Enc32(v % TWO32);
    assert s[4..] == Enc32(v / TWO32);
  }

  // ---- arithmetic ----

  datatype AluOp =
    | Add | Sub | Mul | Div | Mod
    | Eq | Ne | Lt | Le | Gt | Ge
    | BAnd | BOr | BXor | Shl | Shr

  /** `DivFault` is the hardware divide error of INT64_MIN / -1. */
  datatype AluResult = Value(v: u64) | DivZero | DivFault

  function Bool64(b: bool): u64 {
    if b then 1 else 0
  }

  /** C division: the quotient truncated toward zero. */
  function TruncDiv(a: int, b: int): int
    requires b != 0
  {
    var q := Abs(a) / Abs(b);
    if (a < 0) == (b < 0) then q else -q
  }

  function TruncMod(a: int, b: int): int
    requires b != 0
  {
    a - b * TruncDiv(a, b)
  }

  function Abs(a: int): nat {
    if a < 0 then -a else a
  }

  function Pow2(n: nat): (p: nat)
    ensures p >= 1
  {
    if n == 0 then 1 else 2 * Pow2(n - 1)
  }

  function Alu(op: AluOp, a: u64, b: u64): AluResult {
    match op
    case Add => Value(Wrap(a + b))
    case Sub => Value(Wrap(a - b))
    case Mul => Value(Wrap(a * b))
    case Div =>
      if b == 0 then DivZero
      else if Signed(a) == -TWO63 && Signed(b) == -1 then DivFault
      else Value(Wrap(TruncDiv(Signed(a), Signed(b))))
    case Mod =>
      if b == 0 then DivZero
      else if Signed(a) == -TWO63 && Signed(b) == -1 then DivFault
      else Value(Wrap(TruncMod(Signed(a), Signed(b))))
    case Eq => Value(Bool64(a == b))
    case Ne => Value(Bool64(a != b))
    case Lt => Value(Bool64(Signed(a) < Signed(b)))
    case Le => Value(Bool64(Signed(a) <= Signed(b)))
    case Gt => Value(Bool64(Signed(a) > Signed(b)))
    case Ge => Value(Bool64(Signed(a) >= Signed(b)))
    case BAnd => Value(((a as bv64) & (b as bv64)) as u64)
    case BOr => Value(((a as bv64) | (b as bv64)) as u64)
    case BXor => Value(((a as bv64) ^ (b as bv64)) as u64)
    case Shl => Value(Wrap(a * Pow2(b % 64)))
    case Shr => Value(ShiftRight(a, b % 64))
  }

  /** Logical right shift. */
  function ShiftRight(a: u64, n: nat): u64
    decreases n
  {
    if n == 0 then a else ShiftRight(a / 2, n - 1)
  }

  function Negate(a: u64): u64 {
    Wrap(-Signed(a))
  }

  function Complement(a: u64): u64 {
    TWO64 - 1 - a
  }

  // ---- what the arithmetic means on signed values ----

  /** Truncated division: quotient and remainder recompose the dividend, the
      remainder is smaller than the divisor and takes the dividend's sign. */
  lemma TruncDivMod(a: int, b: int)
    requires b != 0
    ensures a == b * TruncDiv(a, b) + TruncMod(a, b)
    ensures Abs(TruncMod(a, b)) < Abs(b)
    ensures TruncMod(a, b) == 0 || (TruncMod(a, b) < 0) == (a < 0)
    ensures Abs(TruncDiv(a, b)) <= Abs(a)
    ensures Abs(b) >= 2 ==> 2 * Abs(TruncDiv(a, b)) <= Abs(a)
  {
    hide TruncDiv, TruncMod;
    TruncShape(a, b);
    QuotientBound(Abs(b), Abs(a));
  }

  lemma TruncShape(a: int, b: int)
    requires b != 0
    ensures a == b * TruncDiv(a, b) + TruncMod(a, b)
    ensures TruncDiv(a, b) == if (a < 0) == (b < 0) then Abs(a) / Abs(b) else -(Abs(a) / Abs(b))
    ensures TruncMod(a, b) == if a < 0 then -(Abs(a) % Abs(b)) else Abs(a) % Abs(b)
  {
  }

  lemma QuotientBound(b: nat, a: nat)
    requires b >= 1
    ensures 0 <= a % b < b
    ensures 0 <= a / b <= a
    ensures b >= 2 ==> 2 * (a / b) <= a
  {
    var q := a / b;
    MulMono(1, b, q);
    if b >= 2 { MulMono(2, b, q); }
  }

  lemma MulMono(x: nat, y: nat, q: nat)
    requires x <= y
    ensures x * q <= y * q
  {
    assert y * q == x * q + (y - x) * q;
  }

  /** Add, subtract and multiply are signed integer arithmetic modulo 2^64, so
      by `SignedWrap` exact whenever the true result fits in 64 signed bits. */
  lemma AluSigned(a: u64, b: u64)
    ensures Alu(Add, a, b) == Value(Wrap(Signed(a) + Signed(b)))
    ensures Alu(Sub, a, b) == Value(Wrap(Signed(a) - Signed(b)))
    ensures Alu(Mul, a, b) == Value(Wrap(Signed(a) * Signed(b)))
  {
    WrapAdd(a, b);
    WrapMul(a, b);
  }

  /** Division and remainder of the VM are C's on the signed readings: both are
      defined unless the divisor is 0 or the quotient does not fit. */
  lemma AluDivision(a: u64, b: u64)
    ensures Alu(Div, a, b).Value? <==> b != 0 && !(Signed(a) == -TWO63 && Signed(b) == -1)
    ensures Alu(Mod, a, b).Value? <==> Alu(Div, a, b).Value?
    ensures Alu(Div, a, b).Value? ==>
              var q, r := Signed(Alu(Div, a, b).v), Signed(Alu(Mod, a, b).v);
              && Signed(a) == Signed(b) * q + r
              && Abs(r) < Abs(Signed(b))
              && (r == 0 || (r < 0) == (Signed(a) < 0))
  {
    if b != 0 && !(Signed(a) == -TWO63 && Signed(b) == -1) {
      var x, y := Signed(a), Signed(b);
      TruncDivMod(x, y);
      var q, r := TruncDiv(x, y), TruncMod(x, y);
      DivisionFits(x, y);
      SignedWrap(q);
      SignedWrap(r);
    }
  }

  lemma DivisionFits(x: int, y: int)
    requires Fits(x) && Fits(y) && y != 0 && !(x == -TWO63 && y == -1)
    ensures Fits(TruncDiv(x, y)) && Fits(TruncMod(x, y))
  {
    TruncDivMod(x, y);
    if Abs(y) == 1 {
      assert Abs(x) / Abs(y) == Abs(x);
    }
  }

  predicate Fits(x: int) {
    -TWO63 <= x < TWO63
  }

  lemma SignedWrap(x: int)
    requires Fits(x)
    ensures Signed(Wrap(x)) == x
  {
  }

  lemma WrapAdd(a: u64, b: u64)
    ensures Wrap(a + b) == Wrap(Signed(a) + Signed(b))
    ensures Wrap(a - b) == Wrap(Signed(a) - Signed(b))
  {
    var i := if a < TWO63 then 0 else 1;
    var j := if b < TWO63 then 0 else 1;
    WrapShift(Signed(a) + Signed(b), i + j);
    WrapShift(Signed(a) - Signed(b), i - j);
  }

  lemma WrapMul(a: u64, b: u64)
    ensures Wrap(a * b) == Wrap(Signed(a) * Signed(b))
  {
    var x, y := Signed(a), Signed(b);
    var i := if a < TWO63 then 0 else 1;
    var j := if b < TWO63 then 0 else 1;
    Expand(x, y, i, j);
    WrapShift(x * y, i * y + j * x + i * j * TWO64);
  }

  lemma Expand(x: int, y: int, i: int, j: int)
    ensures (x + i * TWO64) * (y + j * TWO64) == x * y + TWO64 * (i * y + j * x + i * j * TWO64)
  {
  }

  lemma WrapShift(x: int, k: int)
    ensures Wrap(x + TWO64 * k) == Wrap(x)
  {
  }
}
