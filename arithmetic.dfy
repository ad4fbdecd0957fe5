// The word and adder builtins of builtins/arithmetic other than the ALU:
// Not16, Or16, Add16, Inc16 (the word operators of `Signal`), the 16-bit
// multiplexers, and the half and full adders. Each is the function from
// the values its `eval` reads to the values it writes.
module Arithmetic {
  import opened Signal
  import opened LogicGates

  // ---------------------------------------------------------------------
  // Multiplexers.
  // ---------------------------------------------------------------------

  /** `Mux16Chip::eval`: sel LOW passes a, any other sel passes b. */
  function Mux16(a: Word, b: Word, sel: Voltage): Word
  {
    if sel == LOW then a else b
  }

  /** `Mux4Way16Chip::eval`: input a, b, c or d (in that order) as the low
    * two bits of sel (`sel & 0b11`) number them. */
  function Mux4Way16(ins: seq<Word>, sel: Word): Word
    requires |ins| == 4
  {
    ins[sel % 4]
  }

  /** `Mux8Way16Chip::eval`: input a to h by `sel & 0b111`. */
  function Mux8Way16(ins: seq<Word>, sel: Word): Word
    requires |ins| == 8
  {
    ins[sel % 8]
  }

  /** Mux4Way16 is the tree of three Mux16s: bit 0 of sel picks within
    * (a, b) and within (c, d), bit 1 picks between the two. */
  lemma Mux4Way16Tree(ins: seq<Word>, sel: Word)
    requires |ins| == 4
    ensures Mux4Way16(ins, sel) ==
      Mux16(Mux16(ins[0], ins[1], SelLine(sel, 0)), Mux16(ins[2], ins[3], SelLine(sel, 0)), SelLine(sel, 1))
  {
    SelBits(sel);
    LowTwo(sel);
  }

  /** Mux8Way16 is a Mux16 on bit 2 of sel over two Mux4Way16s. */
  lemma Mux8Way16Tree(ins: seq<Word>, sel: Word)
    requires |ins| == 8
    ensures Mux8Way16(ins, sel) ==
      Mux16(Mux4Way16(ins[..4], sel), Mux4Way16(ins[4..], sel), SelLine(sel, 2))
  {
    SelBits(sel);
    LowThree(sel);
  }

  /** Mux16 is the one-bit Mux applied to every bit of the two words. */
  lemma Mux16Bitwise(a: Word, b: Word, sel: Voltage, i: nat)
    ensures Bit(Mux16(a, b, sel), i) <==> MuxGate(Level(Bit(a, i)), Level(Bit(b, i)), sel) == HIGH
  {
  }

  // ---------------------------------------------------------------------
  // Adders.
  // ---------------------------------------------------------------------

  /** The number a voltage stands for when added: 1 for HIGH, else 0. */
  function Val(x: Voltage): nat
  {
    if x == HIGH then 1 else 0
  }

  /** `HalfAdderChip::eval` and `FullAdderChip::half_adder`: (sum, carry);
    * sum is HIGH when exactly one input is HIGH and the other LOW, carry
    * when both are HIGH. */
  function HalfAdder(a: Voltage, b: Voltage): (Voltage, Voltage)
  {
    (Level((a == HIGH && b == LOW) || (a == LOW && b == HIGH)), Level(a == HIGH && b == HIGH))
  }

  /** `FullAdderChip::eval`: two half adders and an Or of their carries. */
  function FullAdder(a: Voltage, b: Voltage, c: Voltage): (Voltage, Voltage)
  {
    var (s, ca) := HalfAdder(a, b);
    var (sum, cb) := HalfAdder(s, c);
    (sum, OrGate(ca, cb))
  }

  /** On logic levels the half adder adds: sum + 2 * carry = a + b. */
  lemma HalfAdderAdds(a: Voltage, b: Voltage)
    requires IsLevel(a) && IsLevel(b)
    ensures Val(HalfAdder(a, b).0) + 2 * Val(HalfAdder(a, b).1) == Val(a) + Val(b)
  {
  }

  /** On logic levels the full adder adds: sum + 2 * carry = a + b + c. */
  lemma FullAdderAdds(a: Voltage, b: Voltage, c: Voltage)
    requires IsLevel(a) && IsLevel(b) && IsLevel(c)
    ensures Val(FullAdder(a, b, c).0) + 2 * Val(FullAdder(a, b, c).1) == Val(a) + Val(b) + Val(c)
    ensures IsLevel(FullAdder(a, b, c).0) && IsLevel(FullAdder(a, b, c).1)
  {
    HalfAdderAdds(a, b);
    HalfAdderAdds(HalfAdder(a, b).0, c);
  }

  /** The n-bit ripple-carry adder built from full adders: bit 0 of a and
    * b with carry-in c, then the rest of the bits with the carry out. */
  function Ripple(a: nat, b: nat, c: Voltage, n: nat): nat
  {
    if n == 0 then 0
    else
      var (s, co) := FullAdder(Level(a % 2 == 1), Level(b % 2 == 1), c);
      Val(s) + 2 * Ripple(a / 2, b / 2, co, n - 1)
  }

  /** The ripple-carry adder computes a + b + c modulo 2^n. */
  lemma {:induction false} RippleAdds(a: nat, b: nat, c: Voltage, n: nat)
    requires IsLevel(c)
    ensures Ripple(a, b, c, n) == (a + b + Val(c)) % Pow2(n)
  {
    if n > 0 {
      var (s, co) := FullAdder(Level(a % 2 == 1), Level(b % 2 == 1), c);
      FullAdderAdds(Level(a % 2 == 1), Level(b % 2 == 1), c);
      RippleAdds(a / 2, b / 2, co, n - 1);
      var t := a / 2 + b / 2 + Val(co);
      assert a + b + Val(c) == 2 * t + Val(s);
      ModDouble(t, Val(s), Pow2(n - 1));
    }
  }

  /** `Add16Chip::eval` (`a.wrapping_add(b)`) is the 16-bit ripple-carry
    * adder with carry-in LOW. */
  lemma Add16IsRipple(a: Word, b: Word)
    ensures Add(a, b) == Ripple(a, b, LOW, 16)
  {
    RippleAdds(a, b, LOW, 16);
    Pow2Values();
  }

  /** `Inc16Chip::eval` (`n.wrapping_add(1)`) is the same adder with b = 0
    * and carry-in HIGH. */
  lemma Inc16IsRipple(w: Word)
    ensures Add(w, 1) == Ripple(w, 0, HIGH, 16)
    ensures w == 0xFFFF ==> Add(w, 1) == 0
  {
    RippleAdds(w, 0, HIGH, 16);
    Pow2Values();
  }
}
