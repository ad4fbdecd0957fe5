// The older `SubBus` of bus.rs. Its field read and write compute the mask
// as `(1 << width) - 1` in 16 bits, which overflows for a field 16 bits
// wide. The views of subbus.rs use `mask`, which saturates instead; the
// rest of the model uses those (`Signal.Slice`, `Signal.Splice`).
module LegacySubBus {
  import opened Signal

  /** `(1 << width) - 1` on a `u16` as an optimised build evaluates it:
    * the shift amount is taken modulo 16, so width 16 yields 1 - 1 = 0. A
    * debug build aborts on that shift instead; either way the intended
    * 0xFFFF is never produced. */
  function LegacyMask(width: nat): (m: Word)
    requires width <= 16
    ensures width < 16 ==> m == Mask(width)
    ensures width == 16 ==> m == 0
  {
    Unit(width % 16) - 1
  }

  /** `SubBus::bus_voltage`: `(parent >> start) & mask`. */
  function LegacyRead(pv: Word, start: nat, width: nat): Word
    requires width <= 16
  {
    And(Shr(pv, start), LegacyMask(width))
  }

  /** `SubBus::set_bus_voltage`: the value the parent is set to,
    * `(parent & !(mask << start)) | ((v & mask) << start)`. */
  function LegacyWrite(pv: Word, start: nat, width: nat, v: Word): Word
    requires width <= 16
  {
    Or(And(pv, Not(Shl(LegacyMask(width), start))), Shl(And(v, LegacyMask(width)), start))
  }

  /** Below 16 bits the older view reads and writes exactly as the views of
    * subbus.rs do. */
  lemma LegacyAgreesBelow16(pv: Word, start: nat, width: nat, v: Word)
    requires width < 16
    ensures LegacyRead(pv, start, width) == Slice(pv, start, width)
    ensures LegacyWrite(pv, start, width, v) == Splice(pv, start, width, v)
  {
  }

  /** A 16-bit-wide older view reads 0 whatever the parent holds, and a
    * write through it leaves the parent as it was. */
  lemma LegacyFullWidthLost(pv: Word, start: nat, v: Word)
    ensures LegacyRead(pv, start, 16) == 0
    ensures LegacyWrite(pv, start, 16, v) == pv
  {
    AndZero(Shr(pv, start));
    AndZero(v);
    assert Not(Shl(0, start)) == 0xFFFF by {
      forall i | 0 <= i < 16
        ensures Bit(Not(Shl(0, start)), i) == Bit(0xFFFF, i)
      {
        NotBit(Shl(0, start), i);
        ShlBit(0, start, i);
        if start <= i {
          ZeroBit(i - start);
        }
        MaskBit(16, i);
      }
      WordsEqual(Not(Shl(0, start)), 0xFFFF);
    }
    AndOnes(pv);
    forall i | 0 <= i < 16
      ensures Bit(Shl(0, start), i) == Bit(0, i)
    {
      ShlBit(0, start, i);
      ZeroBit(i);
      if start <= i {
        ZeroBit(i - start);
      }
    }
    WordsEqual(Shl(0, start), 0);
    OrZero(pv);
  }

  /** The input that shows it: writing 0xFFFF through a 16-bit older view
    * of a bus holding 0 and reading it back gives 0, where the views of
    * subbus.rs give back 0xFFFF. */
  lemma LegacyRoundTripFails()
    ensures LegacyRead(LegacyWrite(0, 0, 16, 0xFFFF), 0, 16) == 0
    ensures Slice(Splice(0, 0, 16, 0xFFFF), 0, 16) == 0xFFFF
  {
    LegacyFullWidthLost(0, 0, 0xFFFF);
    LegacyFullWidthLost(LegacyWrite(0, 0, 16, 0xFFFF), 0, 0xFFFF);
    SliceSplice(0, 0, 16, 0xFFFF);
    MaskValues();
    AndOnes(0xFFFF);
  }

  /** The corrected view keeps the round trip at every width that fits the
    * parent, 16 included. */
  lemma ViewRoundTrip(pv: Word, start: nat, width: nat, v: Word)
    requires start + width <= 16
    ensures Slice(Splice(pv, start, width, v), start, width) == And(v, Mask(width))
    ensures width == 16 ==> Slice(Splice(pv, start, width, v), start, width) == v
  {
    SliceSplice(pv, start, width, v);
    if width == 16 {
      MaskValues();
      AndOnes(v);
    }
  }
}
