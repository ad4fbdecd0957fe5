// The builtin chips (builtins/): for every chip the registry can build, the
// pins it declares and what its `eval`, `tick`, `tock` and `reset` do.
//
// Each of those operations first samples the chip's input pins and then
// writes its output pins in a fixed order. Here an operation is the list of
// writes it makes, computed from the sampled values and the chip's state,
// and `Apply` performs such a list on the pin arena exactly as the engine's
// `pull` and `set_bus_voltage` calls do, propagation included.
module Builtins {
  import opened Signal
  import opened Errors
  import opened Wiring
  import opened LogicGates
  import opened Arithmetic
  import opened Alu
  import opened Memories

  // ---------------------------------------------------------------------
  // The chips and their pins.
  // ---------------------------------------------------------------------

  /** One constructor per builtin chip; `Unshown` stands for a chip that
    * is registered but whose behaviour is not part of this model. */
  datatype Kind =
    | NotChip | OrChip | MuxChip | DMuxChip | DMux4WayChip | DMux8WayChip
    | Not16Chip | Or16Chip | Add16Chip | Inc16Chip
    | Mux16Chip | Mux4Way16Chip | Mux8Way16Chip
    | HalfAdderChip | FullAdderChip | AluChip
    | DffChip | BitChip | RegisterChip | PcChip
    | Ram8Chip | Ram64Chip | Ram512Chip | Ram16kChip
    | Rom32kChip | ScreenChip | KeyboardChip
    | Unshown(chipName: string)

  /** The name each chip reports, which is also its registry key. */
  function NameOf(k: Kind): string
  {
    match k
    case NotChip => "Not"
    case OrChip => "Or"
    case MuxChip => "Mux"
    case DMuxChip => "DMux"
    case DMux4WayChip => "DMux4Way"
    case DMux8WayChip => "DMux8Way"
    case Not16Chip => "Not16"
    case Or16Chip => "Or16"
    case Add16Chip => "Add16"
    case Inc16Chip => "Inc16"
    case Mux16Chip => "Mux16"
    case Mux4Way16Chip => "Mux4Way16"
    case Mux8Way16Chip => "Mux8Way16"
    case HalfAdderChip => "HalfAdder"
    case FullAdderChip => "FullAdder"
    case AluChip => "ALU"
    case DffChip => "DFF"
    case BitChip => "Bit"
    case RegisterChip => "Register"
    case PcChip => "PC"
    case Ram8Chip => "RAM8"
    case Ram64Chip => "RAM64"
    case Ram512Chip => "RAM512"
    case Ram16kChip => "RAM16K"
    case Rom32kChip => "ROM32K"
    case ScreenChip => "Screen"
    case KeyboardChip => "Keyboard"
    case Unshown(n) => n
  }

  /** The chips that share the common pin lookup and reset: the logic and
    * arithmetic gates. */
  predicate Combinational(k: Kind)
  {
    k.NotChip? || k.OrChip? || k.MuxChip? || k.DMuxChip? || k.DMux4WayChip? || k.DMux8WayChip? ||
    k.Not16Chip? || k.Or16Chip? || k.Add16Chip? || k.Inc16Chip? ||
    k.Mux16Chip? || k.Mux4Way16Chip? || k.Mux8Way16Chip? ||
    k.HalfAdderChip? || k.FullAdderChip? || k.AluChip?
  }

  /** The chips that implement `ClockedChip`. */
  predicate Clocked(k: Kind)
  {
    k.DffChip? || k.BitChip? || k.RegisterChip? || k.PcChip? || RandomAccess(k)
  }

  /** The chips with a writable memory: the four RAMs and the screen. */
  predicate RandomAccess(k: Kind)
  {
    k.Ram8Chip? || k.Ram64Chip? || k.Ram512Chip? || k.Ram16kChip? || k.ScreenChip?
  }

  /** The chips whose `eval` itself stores into memory when load is HIGH. */
  predicate WritesOnEval(k: Kind)
  {
    k.Ram8Chip? || k.Ram16kChip?
  }

  /** A declared pin: its name and width. */
  datatype Decl = Decl(name: string, width: nat)

  /** The input pins each chip creates, in the order it creates them. */
  function Inputs(k: Kind): seq<Decl>
  {
    match k
    case NotChip => [Decl("in", 1)]
    case OrChip => [Decl("a", 1), Decl("b", 1)]
    case MuxChip => [Decl("a", 1), Decl("b", 1), Decl("sel", 1)]
    case DMuxChip => [Decl("in", 1), Decl("sel", 1)]
    case DMux4WayChip => [Decl("in", 1), Decl("sel", 2)]
    case DMux8WayChip => [Decl("in", 1), Decl("sel", 3)]
    case Not16Chip => [Decl("in", 16)]
    case Or16Chip => [Decl("a", 16), Decl("b", 16)]
    case Add16Chip => [Decl("a", 16), Decl("b", 16)]
    case Inc16Chip => [Decl("in", 16)]
    case Mux16Chip => [Decl("a", 16), Decl("b", 16), Decl("sel", 1)]
    case Mux4Way16Chip =>
      [Decl("a", 16), Decl("b", 16), Decl("c", 16), Decl("d", 16), Decl("sel", 2)]
    case Mux8Way16Chip =>
      [Decl("a", 16), Decl("b", 16), Decl("c", 16), Decl("d", 16),
       Decl("e", 16), Decl("f", 16), Decl("g", 16), Decl("h", 16), Decl("sel", 3)]
    case HalfAdderChip => [Decl("a", 1), Decl("b", 1)]
    case FullAdderChip => [Decl("a", 1), Decl("b", 1), Decl("c", 1)]
    case AluChip =>
      [Decl("x", 16), Decl("y", 16), Decl("zx", 1), Decl("nx", 1),
       Decl("zy", 1), Decl("ny", 1), Decl("f", 1), Decl("no", 1)]
    case DffChip => [Decl("in", 1)]
    case BitChip => [Decl("in", 1), Decl("load", 1)]
    case RegisterChip => [Decl("in", 16), Decl("load", 1)]
    case PcChip => [Decl("in", 16), Decl("reset", 1), Decl("load", 1), Decl("inc", 1)]
    case Ram8Chip => [Decl("in", 16), Decl("load", 1), Decl("address", 3)]
    case Ram64Chip => [Decl("in", 16), Decl("load", 1), Decl("address", 6)]
    case Ram512Chip => [Decl("in", 16), Decl("load", 1), Decl("address", 9)]
    case Ram16kChip => [Decl("in", 16), Decl("load", 1), Decl("address", 14)]
    case Rom32kChip => [Decl("address", 15)]
    case ScreenChip => [Decl("in", 16), Decl("load", 1), Decl("address", 13)]
    case KeyboardChip => []
    case Unshown(_) => []
  }

  /** The output pins each chip creates, in the order its `eval` writes them. */
  function Outputs(k: Kind): seq<Decl>
  {
    match k
    case DMuxChip => [Decl("a", 1), Decl("b", 1)]
    case DMux4WayChip => [Decl("a", 1), Decl("b", 1), Decl("c", 1), Decl("d", 1)]
    case DMux8WayChip =>
      [Decl("a", 1), Decl("b", 1), Decl("c", 1), Decl("d", 1),
       Decl("e", 1), Decl("f", 1), Decl("g", 1), Decl("h", 1)]
    case HalfAdderChip => [Decl("sum", 1), Decl("carry", 1)]
    case FullAdderChip => [Decl("sum", 1), Decl("carry", 1)]
    case AluChip => [Decl("out", 16), Decl("zr", 1), Decl("ng", 1)]
    case Unshown(_) => []
    case _ => [Decl("out", OutWidth(k))]
  }

  /** The width of the single `out` pin of the remaining chips. */
  function OutWidth(k: Kind): nat
  {
    if k.NotChip? || k.OrChip? || k.MuxChip? || k.DffChip? || k.BitChip? then 1 else 16
  }

  /** Only the DFF has an internal pin, `t`. */
  function Internals(k: Kind): seq<Decl>
  {
    if k.DffChip? then [Decl("t", 1)] else []
  }

  /** Every declared pin is as wide as a bus may be. */
  lemma DeclsFit(k: Kind)
    ensures forall j | 0 <= j < |Inputs(k)| :: 1 <= Inputs(k)[j].width <= 16
    ensures forall j | 0 <= j < |Outputs(k)| :: 1 <= Outputs(k)[j].width <= 16
    ensures forall j | 0 <= j < |Internals(k)| :: Internals(k)[j].width == 1
  {
  }

  // ---------------------------------------------------------------------
  // Memory sizes and addressing.
  // ---------------------------------------------------------------------

  /** The width of the address pin of a chip with memory; 0 for the others. */
  function AddressBits(k: Kind): nat
  {
    match k
    case Ram8Chip => 3
    case Ram64Chip => 6
    case Ram512Chip => 9
    case Ram16kChip => 14
    case Rom32kChip => 15
    case ScreenChip => 13
    case _ => 0
  }

  /** The number of words in a chip's `Memory`; the chips without one
    * carry an empty memory. */
  function MemorySize(k: Kind): nat
  {
    match k
    case Ram8Chip => 8
    case Ram64Chip => 64
    case Ram512Chip => 512
    case Ram16kChip => 16384
    case Rom32kChip => 32768
    case ScreenChip => SCREEN_SIZE
    case _ => 0
  }

  /** Words of screen memory, and where the screen and the keyboard sit in
    * the Hack memory map. */
  const SCREEN_SIZE: nat := 8192
  const SCREEN_OFFSET: nat := 16384
  const KEYBOARD_OFFSET: nat := 24576

  /** The keyboard register follows the screen memory directly. */
  lemma MemoryMap()
    ensures SCREEN_OFFSET + SCREEN_SIZE == KEYBOARD_OFFSET
    ensures SCREEN_OFFSET == MemorySize(Ram16kChip)
  {
  }

  /** A memory chip has exactly one word for each address its pin can carry. */
  lemma MemorySizes(k: Kind)
    requires RandomAccess(k) || k.Rom32kChip?
    ensures MemorySize(k) == Pow2(AddressBits(k)) && AddressBits(k) <= 15
  {
    Pow2Small();
  }

  lemma Pow2Small()
    ensures Pow2(3) == 8 && Pow2(6) == 64 && Pow2(9) == 512
    ensures Pow2(13) == 8192 && Pow2(14) == 16384 && Pow2(15) == 32768
  {
    assert Pow2(3) == 2 * Pow2(2) == 8;
    assert Pow2(6) == 8 * Pow2(3) by {
      assert Pow2(6) == 2 * Pow2(5) == 4 * Pow2(4) == 8 * Pow2(3);
    }
    assert Pow2(9) == 8 * Pow2(6) by {
      assert Pow2(9) == 2 * Pow2(8) == 4 * Pow2(7) == 8 * Pow2(6);
    }
    assert Pow2(12) == 8 * Pow2(9) by {
      assert Pow2(12) == 2 * Pow2(11) == 4 * Pow2(10) == 8 * Pow2(9);
    }
    assert Pow2(15) == 8 * Pow2(12) by {
      assert Pow2(15) == 2 * Pow2(14) == 4 * Pow2(13) == 8 * Pow2(12);
    }
  }

  /** The address a memory chip uses: the value on its address pin masked
    * to the pin's width (`address & 0b111` and so on). */
  function MaskedAddress(k: Kind, a: Word): (r: Word)
    ensures (RandomAccess(k) || k.Rom32kChip?) ==> r == a % MemorySize(k) && r < MemorySize(k)
  {
    if RandomAccess(k) || k.Rom32kChip? then
      MemorySizes(k);
      MaskIsMod(a, AddressBits(k));
      And(a, Mask(AddressBits(k)))
    else And(a, Mask(AddressBits(k)))
  }

  // ---------------------------------------------------------------------
  // Sampling the inputs.
  // ---------------------------------------------------------------------

  /** Pin ids ids hold buses of the declared widths. */
  predicate Fits(ps: seq<Pin>, ids: seq<PinId>, decls: seq<Decl>)
  {
    |ids| == |decls| &&
    forall j | 0 <= j < |ids| :: ids[j] < |ps| && ps[ids[j]].Bus? && ps[ids[j]].width == decls[j].width
  }

  /** What a chip reads from an input pin: a 1-bit pin through
    * `voltage(None)`, the raw voltage of its bit 0; a wider one through
    * `bus_voltage()`. */
  function Sample(ps: seq<Pin>, id: PinId, width: nat): (v: Word)
    requires WF(ps) && id < |ps| && ps[id].Bus? && ps[id].width == width
    ensures width == 1 ==> v < 0x100
  {
    assert PinOk(ps, ps[id]);
    if width == 1 then ps[id].state[0] else Value(ps, id)
  }

  /** Every input pin, sampled in order. */
  function Samples(ps: seq<Pin>, ids: seq<PinId>, decls: seq<Decl>): (r: seq<Word>)
    requires WF(ps) && Fits(ps, ids, decls)
    ensures |r| == |ids|
    ensures forall j | 0 <= j < |r| && decls[j].width == 1 :: r[j] < 0x100
  {
    seq(|ids|, j requires 0 <= j < |ids| => Sample(ps, ids[j], decls[j].width))
  }

  /** Sampled values a chip can see: one per input, a voltage on each
    * 1-bit input. */
  predicate Readable(k: Kind, ins: seq<Word>)
  {
    |ins| == |Inputs(k)| && forall j | 0 <= j < |ins| && Inputs(k)[j].width == 1 :: ins[j] < 0x100
  }

  /** The sampled value of a 1-bit input, as a voltage. */
  function Lv(ins: seq<Word>, j: nat): Voltage
    requires j < |ins| && ins[j] < 0x100
  {
    ins[j]
  }

  // ---------------------------------------------------------------------
  // Pin writes.
  // ---------------------------------------------------------------------

  /** One write: `pull(x, None)` or `set_bus_voltage(v)` on a pin. */
  datatype Write = PullTo(pin: PinId, x: Voltage) | SetTo(pin: PinId, v: Word)

  predicate InArena(ps: seq<Pin>, ws: seq<Write>)
  {
    forall j | 0 <= j < |ws| :: ws[j].pin < |ps|
  }

  /** One write on the arena, with nothing borrowed: a pull at bit 0 or a
    * bus write, each with its propagation. */
  function Step(ps: seq<Pin>, w: Write): (r: seq<Pin>)
    requires WF(ps) && w.pin < |ps|
    ensures Kept(ps, r) && WF(r)
  {
    match w
    case PullTo(p, x) => Pulled(ps, p, x, 0, {})
    case SetTo(p, v) => SetV(ps, p, v, {})
  }

  /** The writes ws, in order. Only bus states change. */
  function Apply(ps: seq<Pin>, ws: seq<Write>): (r: seq<Pin>)
    requires WF(ps) && InArena(ps, ws)
    ensures Kept(ps, r) && WF(r)
    decreases |ws|
  {
    if ws == [] then ps
    else
      var ps1 := Step(ps, ws[0]);
      var r := Apply(ps1, ws[1..]);
      KeptTrans(ps, ps1, r);
      r
  }

  /** Applying two lists one after the other is applying their concatenation. */
  lemma {:induction false} ApplyAppend(ps: seq<Pin>, ws: seq<Write>, vs: seq<Write>)
    requires WF(ps) && InArena(ps, ws) && InArena(ps, vs)
    ensures InArena(Apply(ps, ws), vs)
    ensures Apply(ps, ws + vs) == Apply(Apply(ps, ws), vs)
    decreases |ws|
  {
    if ws == [] {
      assert ws + vs == vs;
    } else {
      assert (ws + vs)[0] == ws[0] && (ws + vs)[1..] == ws[1..] + vs;
      ApplyAppend(Step(ps, ws[0]), ws[1..], vs);
    }
  }

  /** A pull at bit 0 of a bus that drives nothing changes that voltage alone. */
  lemma PullLeaf(ps: seq<Pin>, c: PinId, x: Voltage)
    requires WF(ps) && Leaf(ps, c)
    ensures |ps[c].state| >= 1
    ensures Pulled(ps, c, x, 0, {}) == ps[c := ps[c].(state := ps[c].state[0 := x])]
  {
    assert PinOk(ps, ps[c]);
    var Bus(w, st, cs) := ps[c];
    var ps1 := ps[c := Bus(w, st[0 := x], cs)];
    KeptWF(ps, ps1);
    assert PullPush(ps1, cs, 0, x, 0, {} + {c}) == ps1;
  }

  /** The bus p after write w lands on it; a pull past the width of a bus
    * changes nothing. */
  function Stored(p: Pin, w: Write): Pin
    requires p.Bus?
  {
    match w
    case PullTo(_, x) => if |p.state| == 0 then p else Bus(p.width, p.state[0 := x], p.conns)
    case SetTo(_, v) => Bus(p.width, Unpack(v, p.width), p.conns)
  }

  /** Writes to distinct pins. */
  predicate Distinct(ws: seq<Write>)
  {
    forall i, j | 0 <= i < j < |ws| :: ws[i].pin != ws[j].pin
  }

  /** Every write lands on a bus that drives nothing. */
  predicate OnLeaves(ps: seq<Pin>, ws: seq<Write>)
  {
    forall j | 0 <= j < |ws| :: Leaf(ps, ws[j].pin)
  }

  /** Whether some write of ws lands on pin i. */
  predicate Hits(ws: seq<Write>, i: PinId)
  {
    exists j | 0 <= j < |ws| :: ws[j].pin == i
  }

  /** A write to a leaf bus changes that bus alone. */
  lemma StepLeaf(ps: seq<Pin>, w: Write)
    requires WF(ps) && Leaf(ps, w.pin)
    ensures Step(ps, w) == ps[w.pin := Stored(ps[w.pin], w)]
  {
    match w
    case PullTo(c, x) => PullLeaf(ps, c, x);
    case SetTo(c, v) => SetLeaf(ps, c, v, {});
  }

  /** Writes to distinct buses that drive nothing: each bus ends up with
    * its own write stored, and every other pin is unchanged. */
  lemma {:induction false} ApplyLeaves(ps: seq<Pin>, ws: seq<Write>)
    requires WF(ps) && InArena(ps, ws) && Distinct(ws) && OnLeaves(ps, ws)
    ensures forall j | 0 <= j < |ws| :: Apply(ps, ws)[ws[j].pin] == Stored(ps[ws[j].pin], ws[j])
    ensures forall i | 0 <= i < |ps| && !Hits(ws, i) :: Apply(ps, ws)[i] == ps[i]
    decreases |ws|
  {
    if ws != [] {
      var c := ws[0].pin;
      var rest := ws[1..];
      StepLeaf(ps, ws[0]);
      var ps1 := ps[c := Stored(ps[c], ws[0])];
      assert forall m | 0 <= m < |rest| :: rest[m] == ws[m + 1];
      assert !Hits(rest, c);
      forall m | 0 <= m < |rest|
        ensures Leaf(ps1, rest[m].pin)
      {
        assert ws[m + 1].pin != c;
      }
      ApplyLeaves(ps1, rest);
      forall j | 0 <= j < |ws|
        ensures Apply(ps, ws)[ws[j].pin] == Stored(ps[ws[j].pin], ws[j])
      {
        if j > 0 {
          assert rest[j - 1] == ws[j];
        }
      }
      forall i | 0 <= i < |ps| && !Hits(ws, i)
        ensures Apply(ps, ws)[i] == ps[i]
      {
        assert ws[0].pin != i;
        assert !Hits(rest, i);
      }
    }
  }

  /** What a chip reads back from a bus a write was stored in: a pull of
    * a 1-bit pin is its voltage, a write to a 16-bit pin is the word. */
  lemma ReadBack(p: Pin, w: Write, ps: seq<Pin>, id: PinId)
    requires WF(ps) && id < |ps| && ps[id].Bus? && p.Bus? && |p.state| >= 1
    requires ps[id] == Stored(p, w)
    requires w.PullTo? ==> p.width == 1
    requires w.SetTo? ==> p.width == 16
    ensures w.PullTo? ==> Sample(ps, id, 1) == w.x
    ensures w.SetTo? ==> Sample(ps, id, 16) == w.v
  {
    if w.SetTo? {
      PackUnpackFull(w.v);
    }
  }

  // ---------------------------------------------------------------------
  // The state a chip keeps between operations.
  // ---------------------------------------------------------------------

  /** `stored_value` of the DFF and `bit` of the Bit chip; `bits` of the
    * Register and the PC and `current_key` of the keyboard;
    * `current_address` and `next_data` of the RAMs and the screen. */
  datatype Regs = Regs(stored: Voltage, bits: Word, address: nat, nextData: Word)

  /** The state of a new or reset chip. */
  const Cleared: Regs := Regs(LOW, 0, 0, 0)

  // ---------------------------------------------------------------------
  // eval.
  // ---------------------------------------------------------------------

  /** The 1-bit gates: the value of each output, in order. */
  function GateOutputs(k: Kind, ins: seq<Word>): (r: seq<Voltage>)
    requires Readable(k, ins)
    requires k.NotChip? || k.OrChip? || k.MuxChip? || k.DMuxChip? || k.DMux4WayChip? ||
             k.DMux8WayChip? || k.HalfAdderChip? || k.FullAdderChip?
    ensures |r| == |Outputs(k)|
  {
    match k
    case NotChip => [NotGate(Lv(ins, 0))]
    case OrChip => [OrGate(Lv(ins, 0), Lv(ins, 1))]
    case MuxChip => [MuxGate(Lv(ins, 0), Lv(ins, 1), Lv(ins, 2))]
    case DMuxChip =>
      var (a, b) := DMuxGate(Lv(ins, 0), Lv(ins, 1));
      [a, b]
    case DMux4WayChip => DMux4Way(Lv(ins, 0), ins[1])
    case DMux8WayChip => DMux8Way(Lv(ins, 0), ins[1])
    case HalfAdderChip =>
      var (s, c) := HalfAdder(Lv(ins, 0), Lv(ins, 1));
      [s, c]
    case FullAdderChip =>
      var (s, c) := FullAdder(Lv(ins, 0), Lv(ins, 1), Lv(ins, 2));
      [s, c]
  }

  /** The 16-bit chips: the word on `out`. */
  function WordOutput(k: Kind, ins: seq<Word>): Word
    requires Readable(k, ins)
    requires k.Not16Chip? || k.Or16Chip? || k.Add16Chip? || k.Inc16Chip? ||
             k.Mux16Chip? || k.Mux4Way16Chip? || k.Mux8Way16Chip?
  {
    match k
    case Not16Chip => Not(ins[0])
    case Or16Chip => Or(ins[0], ins[1])
    case Add16Chip => Add(ins[0], ins[1])
    case Inc16Chip => Add(ins[0], 1)
    case Mux16Chip => Mux16(ins[0], ins[1], Lv(ins, 2))
    case Mux4Way16Chip => Mux4Way16(ins[..4], ins[4])
    case Mux8Way16Chip => Mux8Way16(ins[..8], ins[8])
  }

  /** The memory after `eval`: RAM8 and RAM16K store `in` at the address
    * when load is HIGH; every other chip leaves its memory alone. */
  function EvalMemory(k: Kind, ins: seq<Word>, mem: seq<Word>): (r: seq<Word>)
    requires Readable(k, ins)
    ensures |r| == |mem|
  {
    if WritesOnEval(k) && ins[1] == HIGH then Written(mem, MaskedAddress(k, ins[2]), ins[0])
    else mem
  }

  /** Each pin of outs pulled to its value, in order. */
  function Pulls(outs: seq<PinId>, vs: seq<Voltage>): (r: seq<Write>)
    requires |vs| == |outs|
    ensures |r| == |outs| && forall j | 0 <= j < |r| :: r[j] == PullTo(outs[j], vs[j])
  {
    seq(|outs|, j requires 0 <= j < |outs| => PullTo(outs[j], vs[j]))
  }

  /** The pin writes of `eval`, given the memory as `EvalMemory` left it:
    * the gates pull each output to its value, the word chips write `out`,
    * the ALU writes `out` and then pulls `zr` and `ng`; the DFF writes
    * nothing; Bit pulls `out` to its bit, Register and PC write their
    * bits and the keyboard its key; the memories write the word at the
    * masked address. */
  function EvalWrites(k: Kind, ins: seq<Word>, outs: seq<PinId>, regs: Regs, mem: seq<Word>): (r: seq<Write>)
    requires Readable(k, ins) && |outs| == |Outputs(k)|
    ensures forall j | 0 <= j < |r| :: r[j].pin in outs
  {
    if k.NotChip? || k.OrChip? || k.MuxChip? || k.DMuxChip? || k.DMux4WayChip? ||
       k.DMux8WayChip? || k.HalfAdderChip? || k.FullAdderChip? then
      Pulls(outs, GateOutputs(k, ins))
    else if k.Not16Chip? || k.Or16Chip? || k.Add16Chip? || k.Inc16Chip? ||
            k.Mux16Chip? || k.Mux4Way16Chip? || k.Mux8Way16Chip? then
      [SetTo(outs[0], WordOutput(k, ins))]
    else
      match k
      case AluChip =>
        var (out, zr, ng) := AluEval(ins[0], ins[1], Lv(ins, 2), Lv(ins, 3), Lv(ins, 4),
                                     Lv(ins, 5), Lv(ins, 6), Lv(ins, 7));
        [SetTo(outs[0], out), PullTo(outs[1], zr), PullTo(outs[2], ng)]
      case BitChip => [PullTo(outs[0], regs.stored)]
      case RegisterChip => [SetTo(outs[0], regs.bits)]
      case PcChip => [SetTo(outs[0], regs.bits)]
      case KeyboardChip => [SetTo(outs[0], regs.bits)]
      case Rom32kChip => [SetTo(outs[0], Read(mem, MaskedAddress(k, ins[0])))]
      case Ram8Chip => [SetTo(outs[0], Read(mem, MaskedAddress(k, ins[2])))]
      case Ram64Chip => [SetTo(outs[0], Read(mem, MaskedAddress(k, ins[2])))]
      case Ram512Chip => [SetTo(outs[0], Read(mem, MaskedAddress(k, ins[2])))]
      case Ram16kChip => [SetTo(outs[0], Read(mem, MaskedAddress(k, ins[2])))]
      case ScreenChip => [SetTo(outs[0], Read(mem, MaskedAddress(k, ins[2])))]
      case _ => []
  }

  // ---------------------------------------------------------------------
  // tick and tock.
  // ---------------------------------------------------------------------

  /** The state after `tick`. The DFF stores `in`; Bit and Register load
    * `in` when load is HIGH; the PC resets, else loads, else counts,
    * else holds; a RAM or the screen latches the masked address and, when
    * load is HIGH, latches `in` as the next data. */
  function TickRegs(k: Kind, ins: seq<Word>, regs: Regs): Regs
    requires Readable(k, ins) && Clocked(k)
  {
    if k.DffChip? then regs.(stored := Lv(ins, 0))
    else if k.BitChip? then (if ins[1] == HIGH then regs.(stored := Lv(ins, 0)) else regs)
    else if k.RegisterChip? then (if ins[1] == HIGH then regs.(bits := ins[0]) else regs)
    else if k.PcChip? then
      (if ins[1] == HIGH then regs.(bits := 0)
       else if ins[2] == HIGH then regs.(bits := ins[0])
       else if ins[3] == HIGH then regs.(bits := Add(regs.bits, 1))
       else regs)
    else
      var a := MaskedAddress(k, ins[2]);
      if ins[1] == HIGH then regs.(address := a, nextData := ins[0]) else regs.(address := a)
  }

  /** The memory after `tick`: a RAM or the screen stores `in` at the
    * masked address when load is HIGH. */
  function TickMemory(k: Kind, ins: seq<Word>, mem: seq<Word>): (r: seq<Word>)
    requires Readable(k, ins) && Clocked(k)
    ensures |r| == |mem|
  {
    if RandomAccess(k) && ins[1] == HIGH then Written(mem, MaskedAddress(k, ins[2]), ins[0]) else mem
  }

  /** A RAM or the screen declares `in`, `load` and `address`. */
  lemma RamInputs(k: Kind)
    requires RandomAccess(k)
    ensures |Inputs(k)| == 3
  {
  }

  /** A RAM8 or RAM16K stores on `eval` what it would store on `tick`. */
  lemma EvalStoresAsTick(k: Kind, ins: seq<Word>, mem: seq<Word>)
    requires Readable(k, ins) && WritesOnEval(k)
    ensures Clocked(k) && EvalMemory(k, ins, mem) == TickMemory(k, ins, mem)
  {
  }

  /** The pin writes of `tick`: only the DFF writes, pulling `t` to `in`. */
  function TickWrites(k: Kind, ins: seq<Word>, internals: seq<PinId>): seq<Write>
    requires Readable(k, ins) && |internals| == |Internals(k)|
  {
    if k.DffChip? then [PullTo(internals[0], Lv(ins, 0))] else []
  }

  /** The pin writes of `tock`: the DFF and Bit pull `out` to the stored
    * voltage, Register and PC write their bits, a RAM or the screen writes
    * the word at the latched address. */
  function TockWrites(k: Kind, outs: seq<PinId>, regs: Regs, mem: seq<Word>): seq<Write>
    requires Clocked(k) && |outs| == |Outputs(k)|
  {
    if k.DffChip? || k.BitChip? then [PullTo(outs[0], regs.stored)]
    else if k.RegisterChip? || k.PcChip? then [SetTo(outs[0], regs.bits)]
    else [SetTo(outs[0], Read(mem, regs.address))]
  }

  // ---------------------------------------------------------------------
  // reset.
  // ---------------------------------------------------------------------

  /** The state after `reset`: every chip with state starts over. */
  function ResetRegs(k: Kind, regs: Regs): Regs
  {
    if Clocked(k) || k.KeyboardChip? then Cleared else regs
  }

  /** The memory after `reset`: a RAM or the screen is cleared; the ROM
    * keeps its program. */
  function ResetMemory(k: Kind, mem: seq<Word>): (r: seq<Word>)
    ensures |r| == |mem|
  {
    if RandomAccess(k) then Zeros(|mem|) else mem
  }

  /** Every pin of ids set to 0. */
  function Zeroed(ids: seq<PinId>): (r: seq<Write>)
    ensures |r| == |ids| && forall j | 0 <= j < |r| :: r[j] == SetTo(ids[j], 0)
  {
    seq(|ids|, j requires 0 <= j < |ids| => SetTo(ids[j], 0))
  }

  /** The pin writes of `reset`: the gates set every input and then every
    * output to 0; the DFF and Bit pull `out` LOW; the ROM writes its word
    * 0 to `out`; every other chip sets `out` to 0. The registered chips
    * whose behaviour is not modelled write nothing. */
  function ResetWrites(k: Kind, ins: seq<PinId>, outs: seq<PinId>, mem: seq<Word>): (r: seq<Write>)
    requires |outs| == |Outputs(k)|
    ensures forall j | 0 <= j < |r| :: r[j].pin in ins || r[j].pin in outs
  {
    if Combinational(k) then Zeroed(ins) + Zeroed(outs)
    else if k.Unshown? then []
    else if k.DffChip? || k.BitChip? then [PullTo(outs[0], LOW)]
    else if k.Rom32kChip? then [SetTo(outs[0], Read(mem, 0))]
    else [SetTo(outs[0], 0)]
  }

  // ---------------------------------------------------------------------
  // Pin lookup.
  // ---------------------------------------------------------------------

  /** Some declaration carries name. */
  predicate Declares(decls: seq<Decl>, name: string)
  {
    exists j | 0 <= j < |decls| :: decls[j].name == name
  }

  // ---------------------------------------------------------------------
  // Screen, keyboard and ROM helpers.
  // ---------------------------------------------------------------------

  /** The word holding pixel (x, y): 32 words per row of 512 pixels. */
  function PixelWord(x: nat, y: nat): nat
  {
    y * 32 + x / 16
  }

  predicate OnScreen(x: nat, y: nat)
  {
    x < 512 && y < 256
  }

  /** `get_pixel(x, y)`: bit x % 16 of the pixel's word,
    * `(word >> bit) & 1 == 1`; off screen, false. */
  function GetPixel(mem: seq<Word>, x: nat, y: nat): bool
  {
    if !OnScreen(x, y) then false
    else And(Shr(Read(mem, PixelWord(x, y)), x % 16), 1) == 1
  }

  /** `set_pixel(x, y, value)`: sets or clears that bit of the pixel's
    * word; off screen, nothing. */
  function SetPixel(mem: seq<Word>, x: nat, y: nat, value: bool): (r: seq<Word>)
    ensures |r| == |mem|
  {
    if !OnScreen(x, y) then mem
    else
      var w := Read(mem, PixelWord(x, y));
      var u := Unit(x % 16);
      Written(mem, PixelWord(x, y), if value then Or(w, u) else And(w, Not(u)))
  }

  /** The source's test `(w >> b) & 1 == 1` reads bit b of w. */
  lemma ShrTest(w: Word, b: nat)
    ensures And(Shr(w, b), 1) == 1 <==> Bit(w, b)
  {
    MaskIsMod(Shr(w, b), 1);
    assert Mask(1) == 1;
    ShrBit(w, b, 0);
  }

  /** Every on-screen pixel lies in the screen memory, and two pixels
    * share a word and a bit only when they are the same pixel. */
  lemma PixelPlace(x: nat, y: nat, x2: nat, y2: nat)
    requires OnScreen(x, y) && OnScreen(x2, y2)
    ensures PixelWord(x, y) < SCREEN_SIZE
    ensures PixelWord(x, y) == PixelWord(x2, y2) && x % 16 == x2 % 16 ==> x == x2 && y == y2
  {
    DivMod(PixelWord(x, y), y, 32, x / 16);
    DivMod(PixelWord(x2, y2), y2, 32, x2 / 16);
    assert x == 16 * (x / 16) + x % 16;
    assert x2 == 16 * (x2 / 16) + x2 % 16;
  }

  /** Setting a pixel and reading it back gives the value set; every
    * other pixel keeps its value. */
  lemma PixelRoundTrip(mem: seq<Word>, x: nat, y: nat, value: bool, x2: nat, y2: nat)
    requires |mem| == SCREEN_SIZE && OnScreen(x, y)
    ensures GetPixel(SetPixel(mem, x, y, value), x, y) == value
    ensures (x2, y2) != (x, y) ==> GetPixel(SetPixel(mem, x, y, value), x2, y2) == GetPixel(mem, x2, y2)
  {
    PixelPlace(x, y, x, y);
    var a := PixelWord(x, y);
    var w := Read(mem, a);
    var u := Unit(x % 16);
    var w2 := if value then Or(w, u) else And(w, Not(u));
    var r := SetPixel(mem, x, y, value);
    ReadAfterWrite(mem, a, w2, a);
    ShrTest(w2, x % 16);
    OrBit(w, u, x % 16);
    AndBit(w, Not(u), x % 16);
    NotBit(u, x % 16);
    UnitBit(x % 16, x % 16);
    if (x2, y2) != (x, y) && OnScreen(x2, y2) {
      PixelPlace(x, y, x2, y2);
      var a2 := PixelWord(x2, y2);
      ReadAfterWrite(mem, a, w2, a2);
      ShrTest(Read(r, a2), x2 % 16);
      ShrTest(Read(mem, a2), x2 % 16);
      if a2 == a {
        OrBit(w, u, x2 % 16);
        AndBit(w, Not(u), x2 % 16);
        NotBit(u, x2 % 16);
        UnitBit(x % 16, x2 % 16);
      }
    }
  }

  /** A screen of 0 words shows no pixel; a screen of 0xFFFF words shows
    * every on-screen pixel. */
  lemma BlankAndFull(x: nat, y: nat)
    ensures !GetPixel(seq(SCREEN_SIZE, _ => 0), x, y)
    ensures OnScreen(x, y) ==> GetPixel(seq(SCREEN_SIZE, _ => 0xFFFF), x, y)
  {
    ShrTest(0, x % 16);
    ZeroBit(x % 16);
    ShrTest(0xFFFF, x % 16);
    if OnScreen(x, y) {
      PixelPlace(x, y, x, y);
      Pow2Values();
      OnesBit(16, x % 16);
    }
  }

  /** `type_char(c)`: Enter is 128, Tab is 129, every other character its
    * code point cut to 16 bits (`c as u16`). */
  function KeyCode(c: char): Word
  {
    if c == '\n' then 128 else if c == '\t' then 129 else (c as int) % 0x1_0000
  }

  /** Letters, digits and space map to their ASCII codes; no character
    * maps to 0 except the NUL character and those whose code point is a
    * multiple of 0x10000. */
  lemma KeyCodes(c: char)
    ensures ('a' <= c <= 'z' || 'A' <= c <= 'Z' || '0' <= c <= '9' || c == ' ') ==> KeyCode(c) == c as int
    ensures KeyCode(c) == 0 <==> (c as int) % 0x1_0000 == 0
  {
  }

  /** `load_program(program)`: word i of the program at address i, for
    * the addresses below 32768; the rest of the ROM unchanged. */
  function Loaded(mem: seq<Word>, program: seq<Word>): (r: seq<Word>)
    ensures |r| == |mem|
  {
    seq(|mem|, i requires 0 <= i < |mem| => if i < |program| && i < 32768 then program[i] else mem[i])
  }

  /** Every address of the ROM passes its mask unchanged. */
  lemma RomAddress(a: Word)
    requires a < 32768
    ensures MaskedAddress(Rom32kChip, a) == a
  {
    assert MemorySize(Rom32kChip) == 32768;
    DivMod(a, 0, 32768, a);
  }

  /** A loaded ROM reads back each program word at its own address. */
  lemma LoadedReads(mem: seq<Word>, program: seq<Word>, a: nat)
    requires |mem| == MemorySize(Rom32kChip) && a < |program| && a < 32768
    ensures Read(Loaded(mem, program), MaskedAddress(Rom32kChip, a)) == program[a]
  {
    RomAddress(a);
    assert Loaded(mem, program)[a] == program[a];
  }

  // ---------------------------------------------------------------------
  // What the chips promise.
  // ---------------------------------------------------------------------

  /** A DFF delays its input by one clock cycle: `tock` after `tick` pulls
    * `out` to the voltage `in` had at the tick, whatever was stored. */
  lemma DffDelays(ins: seq<Word>, outs: seq<PinId>, regs: Regs, mem: seq<Word>)
    requires Readable(DffChip, ins) && |outs| == 1
    ensures TockWrites(DffChip, outs, TickRegs(DffChip, ins, regs), mem) == [PullTo(outs[0], ins[0])]
  {
  }

  /** A Bit or a Register loads `in` on a tick with load HIGH and holds
    * its value on a tick with load LOW. */
  lemma LoadOrHold(k: Kind, ins: seq<Word>, regs: Regs)
    requires (k.BitChip? || k.RegisterChip?) && Readable(k, ins)
    ensures k.BitChip? ==> TickRegs(k, ins, regs).stored == if ins[1] == HIGH then ins[0] else regs.stored
    ensures k.RegisterChip? ==> TickRegs(k, ins, regs).bits == if ins[1] == HIGH then ins[0] else regs.bits
    ensures ins[1] == LOW ==> TickRegs(k, ins, regs) == regs
  {
  }

  /** The PC's inputs, in priority order: reset over load over inc. */
  lemma PcPriority(ins: seq<Word>, regs: Regs)
    requires Readable(PcChip, ins)
    ensures ins[1] == HIGH ==> TickRegs(PcChip, ins, regs).bits == 0
    ensures ins[1] != HIGH && ins[2] == HIGH ==> TickRegs(PcChip, ins, regs).bits == ins[0]
    ensures ins[1] != HIGH && ins[2] != HIGH && ins[3] == HIGH ==>
      TickRegs(PcChip, ins, regs).bits == (regs.bits + 1) % 0x1_0000
    ensures ins[1] != HIGH && ins[2] != HIGH && ins[3] != HIGH ==> TickRegs(PcChip, ins, regs) == regs
  {
  }

  /** The state and memory after a run of ticks, one sample of the inputs
    * per tick. */
  function Run(k: Kind, trace: seq<seq<Word>>, regs: Regs, mem: seq<Word>): (r: (Regs, seq<Word>))
    requires Clocked(k) && forall t | 0 <= t < |trace| :: Readable(k, trace[t])
    ensures |r.1| == |mem|
    decreases |trace|
  {
    if trace == [] then (regs, mem)
    else Run(k, trace[1..], TickRegs(k, trace[0], regs), TickMemory(k, trace[0], mem))
  }

  /** Inputs of a PC that only counts: reset and load LOW, inc HIGH. */
  predicate Counting(ins: seq<Word>)
  {
    |ins| == 4 && ins[1] == LOW && ins[2] == LOW && ins[3] == HIGH
  }

  /** A PC that only counts for n ticks advances by n, modulo 2^16. */
  lemma {:induction false} PcCounts(trace: seq<seq<Word>>, regs: Regs, mem: seq<Word>)
    requires forall t | 0 <= t < |trace| :: Counting(trace[t])
    ensures forall t | 0 <= t < |trace| :: Readable(PcChip, trace[t])
    ensures Run(PcChip, trace, regs, mem).0.bits == (regs.bits + |trace|) % 0x1_0000
    decreases |trace|
  {
    if trace != [] {
      var regs1 := TickRegs(PcChip, trace[0], regs);
      assert regs1.bits == (regs.bits + 1) % 0x1_0000;
      PcCounts(trace[1..], regs1, TickMemory(PcChip, trace[0], mem));
      assert (regs1.bits + |trace| - 1) % 0x1_0000 == (regs.bits + |trace|) % 0x1_0000 by {
        DivMod(regs.bits + 1, (regs.bits + 1) / 0x1_0000, 0x1_0000, regs1.bits);
        var q := (regs.bits + 1) / 0x1_0000;
        assert regs.bits + |trace| == regs1.bits + |trace| - 1 + q * 0x1_0000;
        DivMod(regs.bits + |trace|, q + (regs1.bits + |trace| - 1) / 0x1_0000, 0x1_0000,
               (regs1.bits + |trace| - 1) % 0x1_0000);
      }
    }
  }

  /** A word of a RAM or the screen that no tick with load HIGH addresses
    * keeps its value through a run. */
  lemma {:induction false} UntouchedWordKept(k: Kind, trace: seq<seq<Word>>, regs: Regs, mem: seq<Word>, a: nat)
    requires RandomAccess(k) && forall t | 0 <= t < |trace| :: Readable(k, trace[t])
    requires forall t | 0 <= t < |trace| ::
      |trace[t]| == 3 && (trace[t][1] == HIGH ==> MaskedAddress(k, trace[t][2]) != a)
    ensures Read(Run(k, trace, regs, mem).1, a) == Read(mem, a)
    decreases |trace|
  {
    if trace != [] {
      var mem1 := TickMemory(k, trace[0], mem);
      ReadAfterWrite(mem, MaskedAddress(k, trace[0][2]), trace[0][0], a);
      UntouchedWordKept(k, trace[1..], TickRegs(k, trace[0], regs), mem1, a);
    }
  }

  /** A RAM or the screen stores `in` on a tick with load HIGH, and the
    * following `tock` writes that word to `out`. */
  lemma RamWriteThenRead(k: Kind, ins: seq<Word>, outs: seq<PinId>, regs: Regs, mem: seq<Word>)
    requires RandomAccess(k) && Readable(k, ins) && |outs| == 1 && ins[1] == HIGH
    requires |mem| == MemorySize(k)
    ensures TockWrites(k, outs, TickRegs(k, ins, regs), TickMemory(k, ins, mem)) == [SetTo(outs[0], ins[0])]
  {
    var a := MaskedAddress(k, ins[2]);
    ReadAfterWrite(mem, a, ins[0], a);
  }

  /** A RAM8 or RAM16K evaluated with load HIGH writes `in` to `out` in
    * the same evaluation. */
  lemma EvalWriteThrough(k: Kind, ins: seq<Word>, outs: seq<PinId>, regs: Regs, mem: seq<Word>)
    requires WritesOnEval(k) && Readable(k, ins) && |outs| == 1 && ins[1] == HIGH
    requires |mem| == MemorySize(k)
    ensures EvalWrites(k, ins, outs, regs, EvalMemory(k, ins, mem)) == [SetTo(outs[0], ins[0])]
  {
    var a := MaskedAddress(k, ins[2]);
    ReadAfterWrite(mem, a, ins[0], a);
  }

  /** After `reset`, a RAM or the screen reads 0 at every address. */
  lemma ResetClears(k: Kind, mem: seq<Word>, a: nat)
    requires RandomAccess(k) && |mem| == MemorySize(k)
    ensures Read(ResetMemory(k, mem), MaskedAddress(k, a % 0x1_0000)) == 0
  {
    ReadZeros(|mem|, MaskedAddress(k, a % 0x1_0000));
  }
}
