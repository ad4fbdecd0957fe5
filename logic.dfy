// The one-bit logic builtins of builtins/logic: Not, Or, Mux, DMux,
// DMux4Way and DMux8Way. Each is the function from the voltages its
// `eval` reads to the voltages it pulls onto its outputs; the builtin
// chips apply them to their pins.
module LogicGates {
  import opened Signal

  /** The level an output is pulled to for a condition: HIGH or LOW. */
  function Level(b: bool): (x: Voltage)
    ensures x == HIGH <==> b
    ensures x == LOW <==> !b
  {
    if b then HIGH else LOW
  }

  /** A voltage that is a proper logic level. */
  predicate IsLevel(x: Voltage)
  {
    x == LOW || x == HIGH
  }

  /** `NotChip::eval`: HIGH in gives LOW out; any other input gives HIGH. */
  function NotGate(x: Voltage): Voltage
  {
    if x == HIGH then LOW else HIGH
  }

  /** `OrChip::eval`: HIGH when either input is HIGH. */
  function OrGate(a: Voltage, b: Voltage): Voltage
  {
    Level(a == HIGH || b == HIGH)
  }

  /** `MuxChip::eval`: sel LOW passes a, any other sel passes b; the
    * voltage passed is not normalised. */
  function MuxGate(a: Voltage, b: Voltage, sel: Voltage): Voltage
  {
    if sel == LOW then a else b
  }

  /** `DMuxChip::eval`: the input, read as HIGH or LOW, goes to a when sel
    * is LOW and to b otherwise; the other output is LOW. */
  function DMuxGate(x: Voltage, sel: Voltage): (Voltage, Voltage)
  {
    if sel == LOW then (Level(x == HIGH), LOW) else (LOW, Level(x == HIGH))
  }

  /** `DMux4WayChip::eval`: outputs a, b, c, d in order; the one numbered
    * by the low two bits of sel (`sel & 0b11`) carries the input, read as
    * HIGH or LOW, and the others are LOW. */
  function DMux4Way(x: Voltage, sel: Word): (r: seq<Voltage>)
    ensures |r| == 4
  {
    seq(4, i => if i == sel % 4 then Level(x == HIGH) else LOW)
  }

  /** `DMux8WayChip::eval`: outputs a to h, routed by `sel & 0b111`. */
  function DMux8Way(x: Voltage, sel: Word): (r: seq<Voltage>)
    ensures |r| == 8
  {
    seq(8, i => if i == sel % 8 then Level(x == HIGH) else LOW)
  }

  /** Bit k of a selector word, as the voltage of that selector line. */
  function SelLine(sel: Word, k: nat): (x: Voltage)
    ensures x == HIGH <==> Bit(sel, k)
  {
    Level(Bit(sel, k))
  }

  /** The low bits of a selector, read one line at a time. */
  lemma SelBits(sel: Word)
    ensures Bit(sel, 0) <==> sel % 2 == 1
    ensures Bit(sel, 1) <==> (sel / 2) % 2 == 1
    ensures Bit(sel, 2) <==> (sel / 4) % 2 == 1
  {
    assert Bit(sel, 1) == Bit(sel / 2, 0);
    assert Bit(sel, 2) == Bit(sel / 2, 1) == Bit(sel / 2 / 2, 0);
    assert sel / 2 / 2 == sel / 4;
  }

  /** The low two bits of a selector, as a number: bit 1 then bit 0. */
  lemma LowTwo(sel: Word)
    ensures sel % 4 == 2 * ((sel / 2) % 2) + sel % 2
  {
    var h := sel / 2;
    assert sel == 2 * h + sel % 2;
    assert h == 2 * (h / 2) + h % 2;
    assert sel == 4 * (h / 2) + (2 * (h % 2) + sel % 2);
  }

  /** The low three bits of a selector: bit 2 above the low two. */
  lemma LowThree(sel: Word)
    ensures sel % 8 == 4 * ((sel / 4) % 2) + sel % 4
  {
    var q := sel / 4;
    assert sel == 4 * q + sel % 4;
    assert q == 2 * (q / 2) + q % 2;
    assert sel == 8 * (q / 2) + (4 * (q % 2) + sel % 4);
  }

  // ---------------------------------------------------------------------
  // Properties.
  // ---------------------------------------------------------------------

  /** Not undoes itself on logic levels, and always drives a level. */
  lemma NotTwice(x: Voltage)
    ensures IsLevel(NotGate(x))
    ensures IsLevel(x) ==> NotGate(NotGate(x)) == x
  {
  }

  /** The one-bit gates agree with bit 0 of the 16-bit word operators of
    * Not16 and Or16 on logic levels. */
  lemma GatesAgreeWithWords(a: Voltage, b: Voltage)
    requires IsLevel(a) && IsLevel(b)
    ensures NotGate(a) == HIGH <==> Bit(Not(a), 0)
    ensures OrGate(a, b) == HIGH <==> Bit(Or(a, b), 0)
  {
    NotBit(a, 0);
    OrBit(a, b, 0);
  }

  /** Or is commutative and HIGH absorbs. */
  lemma OrLaws(a: Voltage, b: Voltage)
    ensures OrGate(a, b) == OrGate(b, a)
    ensures OrGate(a, HIGH) == HIGH
    ensures IsLevel(a) ==> OrGate(a, LOW) == a
  {
  }

  /** A DMux followed by a Mux on the same select line gives back the
    * input as a level: the two are inverses. */
  lemma MuxUndoesDMux(x: Voltage, sel: Voltage)
    ensures MuxGate(DMuxGate(x, sel).0, DMuxGate(x, sel).1, sel) == Level(x == HIGH)
  {
  }

  /** DMux4Way is the tree of three DMuxes: bit 1 of sel splits the input
    * between the (a, b) and (c, d) halves, bit 0 picks within each half. */
  lemma DMux4WayTree(x: Voltage, sel: Word)
    ensures DMux4Way(x, sel) ==
      [DMuxGate(DMuxGate(x, SelLine(sel, 1)).0, SelLine(sel, 0)).0,
       DMuxGate(DMuxGate(x, SelLine(sel, 1)).0, SelLine(sel, 0)).1,
       DMuxGate(DMuxGate(x, SelLine(sel, 1)).1, SelLine(sel, 0)).0,
       DMuxGate(DMuxGate(x, SelLine(sel, 1)).1, SelLine(sel, 0)).1]
  {
    SelBits(sel);
    LowTwo(sel);
  }

  /** DMux8Way is a DMux on bit 2 of sel feeding two DMux4Ways. */
  lemma DMux8WayTree(x: Voltage, sel: Word)
    ensures DMux8Way(x, sel) ==
      DMux4Way(DMuxGate(x, SelLine(sel, 2)).0, sel) + DMux4Way(DMuxGate(x, SelLine(sel, 2)).1, sel)
  {
    SelBits(sel);
    LowThree(sel);
    var l := DMux4Way(DMuxGate(x, SelLine(sel, 2)).0, sel) + DMux4Way(DMuxGate(x, SelLine(sel, 2)).1, sel);
    forall i | 0 <= i < 8
      ensures DMux8Way(x, sel)[i] == l[i]
    {
    }
  }

  /** At most one output of a DMux8Way is HIGH: the one sel names, and only
    * when the input is HIGH. */
  lemma DMux8WayOneHot(x: Voltage, sel: Word, i: nat, j: nat)
    requires i < 8 && j < 8 && DMux8Way(x, sel)[i] == HIGH && DMux8Way(x, sel)[j] == HIGH
    ensures i == j && x == HIGH
  {
  }
}
