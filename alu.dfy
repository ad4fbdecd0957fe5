// The ALU builtin (builtins/arithmetic/alu.rs): `alu_operation` on a
// six-bit control word, the control word `eval` assembles from the six
// control pins, and the flags it turns into the zr and ng outputs.
module Alu {
  import opened Signal
  import opened LogicGates
  import opened Arithmetic

  /** `AluFlags`, with the discriminant the source gives each. */
  datatype AluFlag = FlagZero | FlagPositive | FlagNegative
  {
    function Code(): Word
    {
      match this
      case FlagZero => 0x00
      case FlagPositive => 0x01
      case FlagNegative => 0x0f
    }
  }

  /** The source's test of control bit k of op: `op & (1 << k) != 0`. */
  predicate Control(op: Word, k: nat)
    requires k < 16
  {
    And(op, Unit(k)) != 0
  }

  /** The pre-setting of one operand: zeroed, then negated (`!w & 0xffff`
    * is `!w` on a u16). */
  function Preset(w: Word, zero: bool, negate: bool): Word
  {
    var w1 := if zero then 0 else w;
    if negate then Not(w1) else w1
  }

  /** The function of the pre-set operands: the wrapping sum or the
    * bitwise and, then optionally negated. */
  function Combine(x: Word, y: Word, sum: bool, negate: bool): Word
  {
    var res := if sum then Add(x, y) else And(x, y);
    if negate then Not(res) else res
  }

  /** The flag of a result: Zero for 0, Negative when bit 15 is set
    * (`result & 0x8000 != 0`), Positive otherwise. */
  function FlagOf(out: Word): (r: AluFlag)
    ensures r == FlagZero <==> out == 0
    ensures r == FlagNegative <==> Negative(out)
    ensures r == FlagPositive <==> 0 < out < 0x8000
  {
    TestBit(out, 15);
    NegativeBit(out);
    if out == 0 then FlagZero else if And(out, Unit(15)) != 0 then FlagNegative else FlagPositive
  }

  /** `alu_operation(op, x, y)`: bit 5 of op zeroes x and bit 4 negates it,
    * bits 3 and 2 do the same to y, bit 1 picks the wrapping sum over the
    * bitwise and, bit 0 negates the result; the flag describes the
    * result. */
  function AluOperation(op: Word, x: Word, y: Word): (Word, AluFlag)
  {
    var out := Combine(Preset(x, Control(op, 5), Control(op, 4)), Preset(y, Control(op, 3), Control(op, 2)),
                       Control(op, 1), Control(op, 0));
    (out, FlagOf(out))
  }

  /** The control word `eval` assembles:
    * `(zx << 5) + (nx << 4) + (zy << 3) + (ny << 2) + (f << 1) + no`,
    * each control 1 when its pin reads HIGH. */
  function ControlWord(zx: Voltage, nx: Voltage, zy: Voltage, ny: Voltage, f: Voltage, no: Voltage): Word
  {
    32 * Val(zx) + 16 * Val(nx) + 8 * Val(zy) + 4 * Val(ny) + 2 * Val(f) + Val(no)
  }

  /** The bits of a control word, one control per bit. */
  lemma ControlWordBits(zx: Voltage, nx: Voltage, zy: Voltage, ny: Voltage, f: Voltage, no: Voltage)
    ensures Bit(ControlWord(zx, nx, zy, ny, f, no), 5) <==> zx == HIGH
    ensures Bit(ControlWord(zx, nx, zy, ny, f, no), 4) <==> nx == HIGH
    ensures Bit(ControlWord(zx, nx, zy, ny, f, no), 3) <==> zy == HIGH
    ensures Bit(ControlWord(zx, nx, zy, ny, f, no), 2) <==> ny == HIGH
    ensures Bit(ControlWord(zx, nx, zy, ny, f, no), 1) <==> f == HIGH
    ensures Bit(ControlWord(zx, nx, zy, ny, f, no), 0) <==> no == HIGH
  {
    var w := ControlWord(zx, nx, zy, ny, f, no);
    var w1 := 16 * Val(zx) + 8 * Val(nx) + 4 * Val(zy) + 2 * Val(ny) + Val(f);
    var w2 := 8 * Val(zx) + 4 * Val(nx) + 2 * Val(zy) + Val(ny);
    var w3 := 4 * Val(zx) + 2 * Val(nx) + Val(zy);
    var w4 := 2 * Val(zx) + Val(nx);
    assert w / 2 == w1 && w1 / 2 == w2 && w2 / 2 == w3 && w3 / 2 == w4 && w4 / 2 == Val(zx);
    assert Bit(w, 5) == Bit(w1, 4) == Bit(w2, 3) == Bit(w3, 2) == Bit(w4, 1) == Bit(Val(zx), 0);
    assert Bit(w, 4) == Bit(w1, 3) == Bit(w2, 2) == Bit(w3, 1) == Bit(w4, 0);
    assert Bit(w, 3) == Bit(w1, 2) == Bit(w2, 1) == Bit(w3, 0);
    assert Bit(w, 2) == Bit(w1, 1) == Bit(w2, 0);
    assert Bit(w, 1) == Bit(w1, 0);
  }

  /** Each control pin lands on its own bit of the control word, and the
    * source's test reads it back. */
  lemma ControlBits(zx: Voltage, nx: Voltage, zy: Voltage, ny: Voltage, f: Voltage, no: Voltage)
    ensures Control(ControlWord(zx, nx, zy, ny, f, no), 5) <==> zx == HIGH
    ensures Control(ControlWord(zx, nx, zy, ny, f, no), 4) <==> nx == HIGH
    ensures Control(ControlWord(zx, nx, zy, ny, f, no), 3) <==> zy == HIGH
    ensures Control(ControlWord(zx, nx, zy, ny, f, no), 2) <==> ny == HIGH
    ensures Control(ControlWord(zx, nx, zy, ny, f, no), 1) <==> f == HIGH
    ensures Control(ControlWord(zx, nx, zy, ny, f, no), 0) <==> no == HIGH
  {
    var w := ControlWord(zx, nx, zy, ny, f, no);
    ControlWordBits(zx, nx, zy, ny, f, no);
    TestBit(w, 5);
    TestBit(w, 4);
    TestBit(w, 3);
    TestBit(w, 2);
    TestBit(w, 1);
    TestBit(w, 0);
  }

  /** `AluChip::eval`: (out, zr, ng) for the inputs and the six control
    * pins; zr is HIGH for the Zero flag, ng for the Negative flag. */
  function AluEval(x: Word, y: Word, zx: Voltage, nx: Voltage, zy: Voltage, ny: Voltage, f: Voltage, no: Voltage): (Word, Voltage, Voltage)
  {
    var (out, flag) := AluOperation(ControlWord(zx, nx, zy, ny, f, no), x, y);
    (out, Level(flag == FlagZero), Level(flag == FlagNegative))
  }

  /** The flags report the result: zr is HIGH exactly for a zero result,
    * ng exactly when bit 15 is set, and never both. */
  lemma AluFlagsReport(x: Word, y: Word, zx: Voltage, nx: Voltage, zy: Voltage, ny: Voltage, f: Voltage, no: Voltage)
    ensures AluEval(x, y, zx, nx, zy, ny, f, no).1 == HIGH <==> AluEval(x, y, zx, nx, zy, ny, f, no).0 == 0
    ensures AluEval(x, y, zx, nx, zy, ny, f, no).2 == HIGH <==> Bit(AluEval(x, y, zx, nx, zy, ny, f, no).0, 15)
    ensures !(AluEval(x, y, zx, nx, zy, ny, f, no).1 == HIGH && AluEval(x, y, zx, nx, zy, ny, f, no).2 == HIGH)
  {
    NegativeBit(AluEval(x, y, zx, nx, zy, ny, f, no).0);
  }

  /** Two's complement negation and subtraction on 16 bits. */
  function Neg(w: Word): Word
  {
    (0x1_0000 - w) % 0x1_0000
  }

  function Sub(a: Word, b: Word): Word
  {
    (a - b) % 0x1_0000
  }

  /** The ALU as the Hack design describes it, for six control bits. */
  function Out(x: Word, y: Word, zx: bool, nx: bool, zy: bool, ny: bool, f: bool, no: bool): Word
  {
    Combine(Preset(x, zx, nx), Preset(y, zy, ny), f, no)
  }

  /** `eval` on control pins driven HIGH or LOW computes `Out` of the
    * corresponding control bits. */
  lemma EvalComputesOut(x: Word, y: Word, zx: bool, nx: bool, zy: bool, ny: bool, f: bool, no: bool)
    ensures AluEval(x, y, Level(zx), Level(nx), Level(zy), Level(ny), Level(f), Level(no)).0
      == Out(x, y, zx, nx, zy, ny, f, no)
  {
    ControlBits(Level(zx), Level(nx), Level(zy), Level(ny), Level(f), Level(no));
  }

  /** The constant rows of the Hack ALU table: 0, 1 and -1. */
  lemma AluConstants(x: Word, y: Word)
    ensures Out(x, y, true, false, true, false, true, false) == 0
    ensures Out(x, y, true, true, true, true, true, true) == 1
    ensures Out(x, y, true, true, true, false, true, false) == 0xFFFF
  {
  }

  /** The pass-through rows: x, y, !x, !y. */
  lemma AluPassThrough(x: Word, y: Word)
    ensures Out(x, y, false, false, true, true, false, false) == x
    ensures Out(x, y, true, true, false, false, false, false) == y
    ensures Out(x, y, false, false, true, true, false, true) == Not(x)
    ensures Out(x, y, true, true, false, false, false, true) == Not(y)
  {
    AndOnes(x);
    AndOnes(y);
  }

  /** The negation and increment rows: -x, -y, x+1, y+1, x-1, y-1. */
  lemma AluIncrements(x: Word, y: Word)
    ensures Out(x, y, false, false, true, true, true, true) == Neg(x)
    ensures Out(x, y, true, true, false, false, true, true) == Neg(y)
    ensures Out(x, y, false, true, true, true, true, true) == Add(x, 1)
    ensures Out(x, y, true, true, false, true, true, true) == Add(y, 1)
    ensures Out(x, y, false, false, true, true, true, false) == Sub(x, 1)
    ensures Out(x, y, true, true, false, false, true, false) == Sub(y, 1)
  {
    assert Add(0xFFFF, y) == if y == 0 then 0xFFFF else y - 1;
  }

  /** The arithmetic two-operand rows: x+y, x-y, y-x. */
  lemma AluSums(x: Word, y: Word)
    ensures Out(x, y, false, false, false, false, true, false) == Add(x, y)
    ensures Out(x, y, false, true, false, false, true, true) == Sub(x, y)
    ensures Out(x, y, false, false, false, true, true, true) == Sub(y, x)
  {
  }

  /** The logical two-operand rows: x&y, and x|y by De Morgan. */
  lemma AluLogic(x: Word, y: Word)
    ensures Out(x, y, false, false, false, false, false, false) == And(x, y)
    ensures Out(x, y, false, true, false, true, false, true) == Or(x, y)
  {
    NotAndNot(x, y);
  }
}
