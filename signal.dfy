// Voltages, 16-bit words and the bit arithmetic every pin kind shares:
// the `mask` helper of subbus.rs, the bit packing of `Bus::bus_voltage`,
// the bit spreading of `Bus::set_bus_voltage` and the field read and
// write of the sub-bus views.
//
// A `u16` is modelled as an integer in [0, 0x10000). Its bitwise operators
// are defined bit by bit (`Bit(w, i)` is bit i of w), and every operator
// is characterised by what it does to each bit.
module Signal {

  /** A pin voltage is the source's `u8`; gates only ever produce HIGH or LOW. */
  type Voltage = x: int | 0 <= x < 0x100

  const HIGH: Voltage := 1
  const LOW: Voltage := 0

  /** The level a toggle or a clock tick moves to: LOW becomes HIGH,
    * anything else LOW. */
  function Flip(x: Voltage): (y: Voltage)
    ensures y == HIGH <==> x == LOW
    ensures y == LOW || y == HIGH
  {
    if x == LOW then HIGH else LOW
  }

  /** Whole-bus values are the source's `u16`. */
  type Word = x: int | 0 <= x < 0x1_0000

  function Pow2(n: nat): (p: nat)
    ensures p >= 1
  {
    if n == 0 then 1 else 2 * Pow2(n - 1)
  }

  lemma Pow2Values()
    ensures Pow2(15) == 0x8000 && Pow2(16) == 0x1_0000
  {
    assert Pow2(4) == 16;
    assert Pow2(8) == 256;
    assert Pow2(12) == 4096;
  }

  lemma {:induction false} Pow2Mono(m: nat, n: nat)
    requires m <= n
    ensures Pow2(m) <= Pow2(n)
  {
    if m < n {
      Pow2Mono(m, n - 1);
    }
  }

  /** A u16 `1 << n` for n < 16. */
  function Unit(n: nat): (w: Word)
    requires n < 16
    ensures w == Pow2(n)
  {
    Pow2Mono(n, 15);
    Pow2Values();
    Pow2(n)
  }

  /** Bit i of w (bit 0 is the least significant). */
  predicate Bit(w: nat, i: nat)
  {
    if i == 0 then w % 2 == 1 else Bit(w / 2, i - 1)
  }

  lemma {:induction false} ZeroBit(i: nat)
    ensures !Bit(0, i)
  {
    if i > 0 {
      ZeroBit(i - 1);
    }
  }

  /** Bits at or above n of a number below 2^n are clear. */
  lemma {:induction false} HighBit(w: nat, n: nat, i: nat)
    requires w < Pow2(n) && n <= i
    ensures !Bit(w, i)
  {
    if n == 0 {
      ZeroBit(i);
    } else {
      HighBit(w / 2, n - 1, i - 1);
    }
  }

  /** Two numbers below 2^n with the same n low bits are equal. */
  lemma {:induction false} BitsDetermine(a: nat, b: nat, n: nat)
    requires a < Pow2(n) && b < Pow2(n)
    requires forall i | 0 <= i < n :: Bit(a, i) == Bit(b, i)
    ensures a == b
  {
    if n > 0 {
      assert Bit(a, 0) == Bit(b, 0);
      forall i | 0 <= i < n - 1
        ensures Bit(a / 2, i) == Bit(b / 2, i)
      {
        assert Bit(a, i + 1) == Bit(b, i + 1);
      }
      BitsDetermine(a / 2, b / 2, n - 1);
    }
  }

  /** Two words with the same 16 bits are equal. */
  lemma WordsEqual(a: Word, b: Word)
    requires forall i | 0 <= i < 16 :: Bit(a, i) == Bit(b, i)
    ensures a == b
  {
    Pow2Values();
    BitsDetermine(a, b, 16);
  }

  lemma {:induction false} UnitBit(n: nat, i: nat)
    ensures Bit(Pow2(n), i) <==> i == n
  {
    if n == 0 {
      if i > 0 {
        ZeroBit(i - 1);
      }
    } else if i > 0 {
      UnitBit(n - 1, i - 1);
    }
  }

  lemma {:induction false} OnesBit(n: nat, i: nat)
    ensures Bit(Pow2(n) - 1, i) <==> i < n
  {
    if n == 0 {
      ZeroBit(i);
    } else if i > 0 {
      OnesBit(n - 1, i - 1);
    }
  }

  lemma {:induction false} ComplBit(n: nat, a: nat, i: nat)
    requires a < Pow2(n)
    ensures Bit(Pow2(n) - 1 - a, i) <==> i < n && !Bit(a, i)
  {
    if n == 0 {
      ZeroBit(i);
    } else {
      var q := Pow2(n - 1);
      assert a == 2 * (a / 2) + a % 2;
      DivMod(Pow2(n) - 1 - a, q - 1 - a / 2, 2, 1 - a % 2);
      if i > 0 {
        ComplBit(n - 1, a / 2, i - 1);
      }
    }
  }

  lemma {:induction false} DropTop(n: nat, w: nat, k: nat)
    requires Pow2(n) <= w < 2 * Pow2(n)
    ensures Bit(w - Pow2(n), k) <==> k != n && Bit(w, k)
  {
    if n == 0 {
      ZeroBit(k);
      if k > 0 {
        ZeroBit(k - 1);
      }
    } else if k > 0 {
      DropTop(n - 1, w / 2, k - 1);
    }
  }

  // ---------------------------------------------------------------------
  // Bitwise operators on the low n bits, and their u16 instances.
  // ---------------------------------------------------------------------

  function AndBits(a: nat, b: nat, n: nat): (r: nat)
    ensures r < Pow2(n)
  {
    if n == 0 then 0
    else 2 * AndBits(a / 2, b / 2, n - 1) + (if a % 2 == 1 && b % 2 == 1 then 1 else 0)
  }

  function OrBits(a: nat, b: nat, n: nat): (r: nat)
    ensures r < Pow2(n)
  {
    if n == 0 then 0
    else 2 * OrBits(a / 2, b / 2, n - 1) + (if a % 2 == 1 || b % 2 == 1 then 1 else 0)
  }

  lemma {:induction false} AndBitsBit(a: nat, b: nat, n: nat, i: nat)
    ensures Bit(AndBits(a, b, n), i) <==> i < n && Bit(a, i) && Bit(b, i)
  {
    if n == 0 {
      ZeroBit(i);
    } else if i > 0 {
      AndBitsBit(a / 2, b / 2, n - 1, i - 1);
    }
  }

  lemma {:induction false} OrBitsBit(a: nat, b: nat, n: nat, i: nat)
    ensures Bit(OrBits(a, b, n), i) <==> i < n && (Bit(a, i) || Bit(b, i))
  {
    if n == 0 {
      ZeroBit(i);
    } else if i > 0 {
      OrBitsBit(a / 2, b / 2, n - 1, i - 1);
    }
  }

  /** u16 `a & b`. */
  function And(a: Word, b: Word): Word
  {
    Pow2Values();
    AndBits(a, b, 16)
  }

  /** u16 `a | b`. */
  function Or(a: Word, b: Word): Word
  {
    Pow2Values();
    OrBits(a, b, 16)
  }

  /** u16 `!a`. */
  function Not(a: Word): Word
  {
    0xFFFF - a
  }

  lemma AndBit(a: Word, b: Word, i: nat)
    ensures Bit(And(a, b), i) <==> Bit(a, i) && Bit(b, i)
  {
    Pow2Values();
    AndBitsBit(a, b, 16, i);
    if i >= 16 {
      HighBit(a, 16, i);
    }
  }

  lemma OrBit(a: Word, b: Word, i: nat)
    ensures Bit(Or(a, b), i) <==> Bit(a, i) || Bit(b, i)
  {
    Pow2Values();
    OrBitsBit(a, b, 16, i);
    if i >= 16 {
      HighBit(a, 16, i);
      HighBit(b, 16, i);
    }
  }

  lemma NotBit(a: Word, i: nat)
    ensures Bit(Not(a), i) <==> i < 16 && !Bit(a, i)
  {
    Pow2Values();
    ComplBit(16, a, i);
  }

  /** Every bit of a word sits below bit 16. */
  lemma WordBit(w: Word, i: nat)
    requires 16 <= i
    ensures !Bit(w, i)
  {
    Pow2Values();
    HighBit(w, 16, i);
  }

  // ---------------------------------------------------------------------
  // Shifts.
  // ---------------------------------------------------------------------

  /** u16 `w >> n`. */
  function Shr(w: Word, n: nat): Word
  {
    if n == 0 then w else Shr(w / 2, n - 1)
  }

  lemma {:induction false} ShrBit(w: Word, n: nat, i: nat)
    ensures Bit(Shr(w, n), i) <==> Bit(w, i + n)
  {
    if n > 0 {
      ShrBit(w / 2, n - 1, i);
    }
  }

  /** u16 `w << 1`: the top bit falls off. */
  function Dbl(w: Word): Word
  {
    (2 * w) % 0x1_0000
  }

  lemma DblLow(w: Word, j: nat)
    requires w < Pow2(15) == 0x8000
    ensures Bit(Dbl(w), j) <==> 0 < j < 16 && Bit(w, j - 1)
  {
    assert Dbl(w) == 2 * w;
    if j > 0 && j - 1 >= 15 {
      HighBit(w, 15, j - 1);
    }
  }

  lemma DblHigh(w: Word, j: nat)
    requires Pow2(15) == 0x8000 <= w && Pow2(16) == 0x1_0000
    ensures Bit(Dbl(w), j) <==> 0 < j < 16 && Bit(w, j - 1)
  {
    assert Dbl(w) == 2 * (w - 0x8000);
    if j > 0 {
      DropTop(15, w, j - 1);
    }
    if j > 16 {
      HighBit(w, 16, j - 1);
    }
  }

  lemma DblBit(w: Word, j: nat)
    ensures Bit(Dbl(w), j) <==> 0 < j < 16 && Bit(w, j - 1)
  {
    Pow2Values();
    if w < 0x8000 {
      DblLow(w, j);
    } else {
      DblHigh(w, j);
    }
  }

  /** u16 `w << n` for a shift amount the source keeps below 16. */
  function Shl(w: Word, n: nat): Word
    decreases n
  {
    if n == 0 then w else Shl(Dbl(w), n - 1)
  }

  lemma {:induction false} ShlBit(w: Word, n: nat, i: nat)
    ensures Bit(Shl(w, n), i) <==> n <= i < 16 && Bit(w, i - n)
    decreases n
  {
    if n == 0 {
      if i >= 16 {
        WordBit(w, i);
      }
    } else {
      ShlBit(Dbl(w), n - 1, i);
      if n - 1 <= i {
        DblBit(w, i - (n - 1));
      }
    }
  }

  // ---------------------------------------------------------------------
  // `mask`, and the field read and write of a sub-bus.
  // ---------------------------------------------------------------------

  /** `mask(bits)` of subbus.rs: `bits` low ones, saturating at 16. */
  function Mask(bits: nat): Word
  {
    if bits >= 16 then 0xFFFF else Unit(bits) - 1
  }

  lemma MaskBit(bits: nat, i: nat)
    ensures Bit(Mask(bits), i) <==> i < bits && i < 16
  {
    Pow2Values();
    if bits >= 16 {
      OnesBit(16, i);
    } else {
      OnesBit(bits, i);
    }
  }

  lemma MaskValues()
    ensures Mask(0) == 0 && Mask(1) == 1 && Mask(3) == 7
    ensures Mask(8) == 0xFF && Mask(16) == 0xFFFF
  {
    assert Pow2(3) == 8;
    assert Pow2(8) == 256 by {
      assert Pow2(4) == 16;
    }
  }

  /** The field [start, start + width) of w, moved down to bit 0:
    * `(w >> start) & mask(width)`. */
  function Slice(w: Word, start: nat, width: nat): Word
  {
    And(Shr(w, start), Mask(width))
  }

  /** w with the field [start, start + width) replaced by the low bits of v:
    * `(w & !(mask(width) << start)) | ((v & mask(width)) << start)`. */
  function Splice(w: Word, start: nat, width: nat, v: Word): Word
  {
    Or(And(w, Not(Shl(Mask(width), start))), Shl(And(v, Mask(width)), start))
  }

  lemma SliceBit(w: Word, start: nat, width: nat, i: nat)
    ensures Bit(Slice(w, start, width), i) <==> i < width && i < 16 && Bit(w, i + start)
  {
    AndBit(Shr(w, start), Mask(width), i);
    ShrBit(w, start, i);
    MaskBit(width, i);
  }

  lemma SpliceBit(w: Word, start: nat, width: nat, v: Word, i: nat)
    ensures Bit(Splice(w, start, width, v), i) <==>
      if start <= i < start + width && i < 16 then Bit(v, i - start) else Bit(w, i)
  {
    var m := Shl(Mask(width), start);
    OrBit(And(w, Not(m)), Shl(And(v, Mask(width)), start), i);
    AndBit(w, Not(m), i);
    NotBit(m, i);
    ShlBit(Mask(width), start, i);
    ShlBit(And(v, Mask(width)), start, i);
    if start <= i {
      MaskBit(width, i - start);
      AndBit(v, Mask(width), i - start);
    }
    if 16 <= i {
      WordBit(w, i);
    }
  }

  /** Masking to n bits keeps a field that lies below bit n. */
  lemma SliceMasked(y: Word, n: nat, s: nat, w: nat)
    requires s + w <= n <= 16
    ensures Slice(And(y, Mask(n)), s, w) == Slice(y, s, w)
  {
    forall i | 0 <= i < 16
      ensures Bit(Slice(And(y, Mask(n)), s, w), i) == Bit(Slice(y, s, w), i)
    {
      SliceBit(And(y, Mask(n)), s, w, i);
      SliceBit(y, s, w, i);
      if i < w {
        AndBit(y, Mask(n), i + s);
        MaskBit(n, i + s);
      }
    }
    WordsEqual(Slice(And(y, Mask(n)), s, w), Slice(y, s, w));
  }

  /** Reading a field just written gives back the low bits written. */
  lemma SliceSplice(w: Word, start: nat, width: nat, v: Word)
    requires start + width <= 16
    ensures Slice(Splice(w, start, width, v), start, width) == And(v, Mask(width))
  {
    forall i | 0 <= i < 16
      ensures Bit(Slice(Splice(w, start, width, v), start, width), i) == Bit(And(v, Mask(width)), i)
    {
      SliceBit(Splice(w, start, width, v), start, width, i);
      SpliceBit(w, start, width, v, i + start);
      AndBit(v, Mask(width), i);
      MaskBit(width, i);
    }
    WordsEqual(Slice(Splice(w, start, width, v), start, width), And(v, Mask(width)));
  }

  /** Writing back the field just read changes nothing. */
  lemma SpliceSlice(w: Word, start: nat, width: nat)
    ensures Splice(w, start, width, Slice(w, start, width)) == w
  {
    forall i | 0 <= i < 16
      ensures Bit(Splice(w, start, width, Slice(w, start, width)), i) == Bit(w, i)
    {
      SpliceBit(w, start, width, Slice(w, start, width), i);
      if start <= i {
        SliceBit(w, start, width, i - start);
      }
    }
    WordsEqual(Splice(w, start, width, Slice(w, start, width)), w);
  }

  /** The second of two writes to the same field wins. */
  lemma SpliceSplice(w: Word, start: nat, width: nat, u: Word, v: Word)
    ensures Splice(Splice(w, start, width, u), start, width, v) == Splice(w, start, width, v)
  {
    forall i | 0 <= i < 16
      ensures Bit(Splice(Splice(w, start, width, u), start, width, v), i)
        == Bit(Splice(w, start, width, v), i)
    {
      SpliceBit(Splice(w, start, width, u), start, width, v, i);
      SpliceBit(w, start, width, u, i);
      SpliceBit(w, start, width, v, i);
    }
    WordsEqual(Splice(Splice(w, start, width, u), start, width, v), Splice(w, start, width, v));
  }

  /** And with 0 clears every bit. */
  lemma AndZero(w: Word)
    ensures And(w, 0) == 0
  {
    forall i | 0 <= i < 16
      ensures Bit(And(w, 0), i) == Bit(0, i)
    {
      AndBit(w, 0, i);
      ZeroBit(i);
    }
    WordsEqual(And(w, 0), 0);
  }

  /** And with all ones keeps every bit. */
  lemma AndOnes(w: Word)
    ensures And(w, 0xFFFF) == w && And(0xFFFF, w) == w
  {
    forall i | 0 <= i < 16
      ensures Bit(And(w, 0xFFFF), i) == Bit(w, i) && Bit(And(0xFFFF, w), i) == Bit(w, i)
    {
      AndBit(w, 0xFFFF, i);
      AndBit(0xFFFF, w, i);
      MaskBit(16, i);
    }
    WordsEqual(And(w, 0xFFFF), w);
    WordsEqual(And(0xFFFF, w), w);
  }

  /** De Morgan: `!(!a & !b)` is `a | b`. */
  lemma NotAndNot(a: Word, b: Word)
    ensures Not(And(Not(a), Not(b))) == Or(a, b)
  {
    forall i | 0 <= i < 16
      ensures Bit(Not(And(Not(a), Not(b))), i) == Bit(Or(a, b), i)
    {
      NotBit(And(Not(a), Not(b)), i);
      AndBit(Not(a), Not(b), i);
      NotBit(a, i);
      NotBit(b, i);
      OrBit(a, b, i);
    }
    WordsEqual(Not(And(Not(a), Not(b))), Or(a, b));
  }

  // ---------------------------------------------------------------------
  // A bus state: one voltage per bit, packed into a word and spread back.
  // ---------------------------------------------------------------------

  /** `Bus::bus_voltage`: bit i is set exactly when voltage i is HIGH. */
  function Pack(s: seq<Voltage>): Word
    requires |s| <= 16
  {
    if |s| == 0 then 0
    else Or(Pack(s[..|s| - 1]), if s[|s| - 1] == HIGH then Unit(|s| - 1) else 0)
  }

  lemma {:induction false} PackBit(s: seq<Voltage>, i: nat)
    requires |s| <= 16
    ensures Bit(Pack(s), i) <==> i < |s| && s[i] == HIGH
  {
    if |s| == 0 {
      ZeroBit(i);
    } else {
      var n := |s| - 1;
      OrBit(Pack(s[..n]), if s[n] == HIGH then Unit(n) else 0, i);
      PackBit(s[..n], i);
      if s[n] == HIGH {
        UnitBit(n, i);
      } else {
        ZeroBit(i);
      }
    }
  }

  lemma OrZero(w: Word)
    ensures Or(w, 0) == w
  {
    forall i | 0 <= i < 16
      ensures Bit(Or(w, 0), i) == Bit(w, i)
    {
      OrBit(w, 0, i);
      ZeroBit(i);
    }
    WordsEqual(Or(w, 0), w);
  }

  /** One step of the packing loop: voltage i sets bit i when it is HIGH. */
  lemma PackPrefix(s: seq<Voltage>, i: nat)
    requires i < |s| <= 16
    ensures Pack(s[..i + 1]) == if s[i] == HIGH then Or(Pack(s[..i]), Unit(i)) else Pack(s[..i])
  {
    assert s[..i + 1][..i] == s[..i];
    if s[i] != HIGH {
      OrZero(Pack(s[..i]));
    }
  }

  /** `Bus::set_bus_voltage`: voltage i is HIGH exactly when bit i of v is set. */
  function Unpack(v: Word, width: nat): (s: seq<Voltage>)
    ensures |s| == width
  {
    seq(width, i requires 0 <= i < width => if Bit(v, i) then HIGH else LOW)
  }

  /** The source's test `v & (1 << i) != 0` reads bit i. */
  lemma TestBit(v: Word, i: nat)
    requires i < 16
    ensures And(v, Unit(i)) != 0 <==> Bit(v, i)
  {
    if Bit(v, i) {
      AndBit(v, Unit(i), i);
      UnitBit(i, i);
      if And(v, Unit(i)) == 0 {
        ZeroBit(i);
      }
    } else {
      forall j | 0 <= j < 16
        ensures Bit(And(v, Unit(i)), j) == Bit(0, j)
      {
        AndBit(v, Unit(i), j);
        UnitBit(i, j);
        ZeroBit(j);
      }
      WordsEqual(And(v, Unit(i)), 0);
    }
  }

  /** Writing a value and reading it back keeps its low `width` bits. */
  lemma PackUnpack(v: Word, width: nat)
    requires width <= 16
    ensures Pack(Unpack(v, width)) == And(v, Mask(width))
  {
    forall i | 0 <= i < 16
      ensures Bit(Pack(Unpack(v, width)), i) == Bit(And(v, Mask(width)), i)
    {
      PackBit(Unpack(v, width), i);
      AndBit(v, Mask(width), i);
      MaskBit(width, i);
    }
    WordsEqual(Pack(Unpack(v, width)), And(v, Mask(width)));
  }

  /** A full-width write round-trips exactly. */
  lemma PackUnpackFull(v: Word)
    ensures Pack(Unpack(v, 16)) == v
  {
    PackUnpack(v, 16);
    forall i | 0 <= i < 16
      ensures Bit(And(v, Mask(16)), i) == Bit(v, i)
    {
      AndBit(v, Mask(16), i);
      MaskBit(16, i);
    }
    WordsEqual(And(v, Mask(16)), v);
  }

  predicate Binary(s: seq<Voltage>)
  {
    forall i | 0 <= i < |s| :: s[i] == LOW || s[i] == HIGH
  }

  /** Reading a state of HIGH/LOW voltages and writing it back restores it. */
  lemma UnpackPack(s: seq<Voltage>)
    requires |s| <= 16 && Binary(s)
    ensures Unpack(Pack(s), |s|) == s
  {
    forall i | 0 <= i < |s|
      ensures Unpack(Pack(s), |s|)[i] == s[i]
    {
      PackBit(s, i);
    }
  }

  /** A state of LOW voltages packs to 0. */
  lemma PackLow(width: nat)
    requires width <= 16
    ensures Pack(seq(width, i => LOW)) == 0
  {
    forall i | 0 <= i < 16
      ensures Bit(Pack(seq(width, i => LOW)), i) == Bit(0, i)
    {
      PackBit(seq(width, i => LOW), i);
      ZeroBit(i);
    }
    WordsEqual(Pack(seq(width, i => LOW)), 0);
  }

  // ---------------------------------------------------------------------
  // Arithmetic.
  // ---------------------------------------------------------------------

  /** `a.wrapping_add(b)` on u16. */
  function Add(a: Word, b: Word): Word
  {
    (a + b) % 0x1_0000
  }

  /** Bit 15, the sign bit of a Hack word: `w & 0x8000 != 0`. */
  predicate Negative(w: Word)
  {
    w >= 0x8000
  }

  lemma {:induction false} TopBit(n: nat, w: nat)
    requires Pow2(n) <= w < 2 * Pow2(n)
    ensures Bit(w, n)
  {
    if n > 0 {
      TopBit(n - 1, w / 2);
    }
  }

  lemma NegativeBit(w: Word)
    ensures Negative(w) <==> Bit(w, 15)
  {
    Pow2Values();
    if w >= 0x8000 {
      TopBit(15, w);
    } else {
      HighBit(w, 15, 15);
    }
  }
  /** Division by m is unique. */
  lemma DivMod(x: int, q: int, m: int, r: int)
    requires m > 0 && 0 <= r < m && x == q * m + r
    ensures x % m == r && x / m == q
  {
    var d := x / m - q;
    assert d * m == r - x % m;
  }

  /** Doubling and adding a bit shifts the remainder by one place. */
  lemma ModDouble(t: nat, s: nat, p: nat)
    requires p >= 1 && s < 2
    ensures (2 * t + s) % (2 * p) == s + 2 * (t % p)
  {
    var q := t / p;
    var r := t % p;
    assert t == q * p + r;
    assert 2 * t + s == q * (2 * p) + (s + 2 * r);
    DivMod(2 * t + s, q, 2 * p, s + 2 * r);
  }

  /** Bit i of w mod 2^n: the bits of w below n. */
  lemma {:induction false} ModBit(w: nat, n: nat, i: nat)
    ensures Bit(w % Pow2(n), i) <==> i < n && Bit(w, i)
  {
    if n == 0 {
      ZeroBit(i);
    } else {
      var p := Pow2(n - 1);
      var low := (w / 2) % p;
      ModDouble(w / 2, w % 2, p);
      assert w == 2 * (w / 2) + w % 2;
      assert w % Pow2(n) == w % 2 + 2 * low;
      assert (w % 2 + 2 * low) % 2 == w % 2 && (w % 2 + 2 * low) / 2 == low;
      if i > 0 {
        ModBit(w / 2, n - 1, i - 1);
        assert Bit(w % Pow2(n), i) == Bit(low, i - 1);
      }
    }
  }

  /** `w & mask(n)` keeps the low n bits: it is w mod 2^n. */
  lemma MaskIsMod(w: Word, n: nat)
    requires n <= 16
    ensures And(w, Mask(n)) == w % Pow2(n)
    ensures And(w, Mask(n)) < Pow2(n)
  {
    var p := Pow2(n);
    var m: Word := ModBelow(w, p);
    forall i | 0 <= i < 16
      ensures Bit(And(w, Mask(n)), i) == Bit(m, i)
    {
      AndBit(w, Mask(n), i);
      MaskBit(n, i);
      ModBit(w, n, i);
    }
    WordsEqual(And(w, Mask(n)), m);
  }

  /** A remainder is no larger than what it is taken of. */
  function ModBelow(w: Word, p: nat): (m: Word)
    requires p >= 1
    ensures m == w % p && m < p
  {
    assert w % p <= w by {
      DivMod(w, w / p, p, w % p);
    }
    w % p
  }
}
