// The pins of a simulated chip and the way a write travels along their
// connections: `Bus`, `ConstantPin`, `InSubBus` and `OutSubBus`.
//
// In the engine every pin lives behind a shared, interiorly mutable handle,
// and a pin holds weak handles to the pins it drives. Here every pin lives
// in one arena, a sequence of `Pin` values addressed by index, and a
// connection is the index of the driven pin. A `RefCell` that is already
// borrowed further up the call chain is one whose index is in the `busy`
// set that every propagation carries: a push to such a pin is skipped, as
// `try_borrow_mut` makes the engine skip it.
module Wiring {
  import opened Signal
  import opened Errors
  import opened PinRanges

  type PinId = nat

  datatype Pin =
      /** `Bus`: `width` voltages and the pins it drives. */
    | Bus(width: nat, state: seq<Voltage>, conns: seq<PinId>)
      /** `ConstantPin`: a fixed 1-bit level. */
    | Constant(level: Voltage)
      /** `InSubBus`: bits [start, start + width) of a parent bus; a write
        * rewrites that field of the parent. */
    | InView(parent: PinId, start: nat, width: nat)
      /** `OutSubBus`: the same field, read and pushed to the pins it drives. */
    | OutView(parent: PinId, start: nat, width: nat, conns: seq<PinId>)

  /** Every index in cs names a pin of ps. */
  predicate Targets(ps: seq<Pin>, cs: seq<PinId>)
  {
    forall j | 0 <= j < |cs| :: cs[j] < |ps|
  }

  /** A view's field lies inside its parent, which is a bus. */
  predicate ViewOk(ps: seq<Pin>, parent: PinId, start: nat, width: nat)
  {
    parent < |ps| && ps[parent].Bus? && start + width <= ps[parent].width
  }

  predicate PinOk(ps: seq<Pin>, p: Pin)
  {
    match p
    case Bus(w, st, cs) => 1 <= w <= 16 && |st| == w && Targets(ps, cs)
    case Constant(_) => true
    case InView(par, s, w) => ViewOk(ps, par, s, w)
    case OutView(par, s, w, cs) => ViewOk(ps, par, s, w) && Targets(ps, cs)
  }

  /** The arena invariant. */
  predicate WF(ps: seq<Pin>)
  {
    forall i | 0 <= i < |ps| :: PinOk(ps, ps[i])
  }

  /** q is p with at most its bus state rewritten. */
  predicate Same(p: Pin, q: Pin)
  {
    if p.Bus? then q.Bus? && q.width == p.width && |q.state| == p.width && q.conns == p.conns
    else q == p
  }

  /** r is ps with at most bus states rewritten. */
  predicate Kept(ps: seq<Pin>, r: seq<Pin>)
  {
    |r| == |ps| && forall i | 0 <= i < |ps| :: Same(ps[i], r[i])
  }

  /** Rewriting bus states twice rewrites only bus states. */
  lemma KeptTrans(ps: seq<Pin>, qs: seq<Pin>, r: seq<Pin>)
    requires Kept(ps, qs) && Kept(qs, r)
    ensures Kept(ps, r)
  {
    forall i | 0 <= i < |ps|
      ensures Same(ps[i], r[i])
    {
      assert Same(ps[i], qs[i]) && Same(qs[i], r[i]);
    }
  }

  lemma KeptWF(ps: seq<Pin>, r: seq<Pin>)
    requires WF(ps) && Kept(ps, r)
    ensures WF(r)
  {
    forall i | 0 <= i < |r|
      ensures PinOk(r, r[i])
    {
      assert PinOk(ps, ps[i]);
      match ps[i]
      case Bus(_, _, _) =>
      case Constant(_) =>
      case InView(par, _, _) =>
        assert Same(ps[par], r[par]);
      case OutView(par, _, _, _) =>
        assert Same(ps[par], r[par]);
    }
  }

  /** The pins not yet borrowed: the measure every propagation decreases. */
  function Free(n: nat, busy: set<PinId>): set<PinId>
  {
    set i: nat | i < n && i !in busy
  }

  lemma Borrow(n: nat, busy: set<PinId>, id: PinId)
    requires id < n && id !in busy
    ensures Free(n, busy + {id}) < Free(n, busy)
  {
    assert id in Free(n, busy) && id !in Free(n, busy + {id});
  }

  /** `bus_voltage`: a bus packs its state; a constant is its level; a view
    * is its field of the parent, shifted down to bit 0. */
  function Value(ps: seq<Pin>, id: PinId): Word
    requires WF(ps) && id < |ps|
  {
    assert PinOk(ps, ps[id]);
    match ps[id]
    case Bus(_, st, _) => Pack(st)
    case Constant(l) => l
    case InView(par, s, w) => Slice(Pack(ps[par].state), s, w)
    case OutView(par, s, w, _) => Slice(Pack(ps[par].state), s, w)
  }

  // ---------------------------------------------------------------------
  // set_bus_voltage.
  // ---------------------------------------------------------------------

  /** `set_bus_voltage(v)` on pin id while the pins in busy are borrowed.
    * A bus stores the low `width` bits of v and pushes v, unmasked, to
    * every pin it drives; a constant ignores the write; an `InSubBus`
    * rewrites its field of the parent; an `OutSubBus` pushes its current
    * field to the pins it drives and, when v differs from it, rewrites its
    * field of the parent. A view whose parent is already borrowed (the
    * engine would abort on the double borrow) is left alone. */
  function SetV(ps: seq<Pin>, id: PinId, v: Word, busy: set<PinId>): (r: seq<Pin>)
    requires WF(ps) && id < |ps| && id !in busy
    ensures Kept(ps, r) && WF(r)
    ensures forall b | b in busy && b < |ps| :: r[b] == ps[b]
    decreases Free(|ps|, busy), 0, 0
  {
    assert PinOk(ps, ps[id]);
    Borrow(|ps|, busy, id);
    match ps[id]
    case Bus(w, st, cs) =>
      var ps1 := ps[id := Bus(w, Unpack(v, w), cs)];
      assert Kept(ps, ps1);
      KeptWF(ps, ps1);
      var r := Push(ps1, cs, 0, v, busy + {id});
      KeptTrans(ps, ps1, r);
      r
    case Constant(_) => ps
    case InView(par, s, w) =>
      if par in busy then ps
      else SetV(ps, par, Splice(Pack(ps[par].state), s, w, v), busy + {id})
    case OutView(par, s, w, cs) =>
      if par in busy then ps
      else
        var cur := Value(ps, id);
        var ps1 := Push(ps, cs, 0, cur, busy + {id});
        assert Same(ps[par], ps1[par]);
        if v == cur then ps1
        else
          var r := SetV(ps1, par, Splice(Pack(ps1[par].state), s, w, v), busy + {id});
          KeptTrans(ps, ps1, r);
          r
  }

  /** The push loop of `propagate_bus_voltage`: from the k-th driven pin
    * on, each one not borrowed receives v. */
  function Push(ps: seq<Pin>, cs: seq<PinId>, k: nat, v: Word, busy: set<PinId>): (r: seq<Pin>)
    requires WF(ps) && Targets(ps, cs) && k <= |cs|
    ensures Kept(ps, r) && WF(r)
    ensures forall b | b in busy && b < |ps| :: r[b] == ps[b]
    decreases Free(|ps|, busy), 1, |cs| - k
  {
    if k == |cs| then ps
    else
      var c := cs[k];
      var ps1 := if c in busy then ps else SetV(ps, c, v, busy);
      var r := Push(ps1, cs, k + 1, v, busy);
      KeptTrans(ps, ps1, r);
      r
  }

  // ---------------------------------------------------------------------
  // pull, toggle, voltage.
  // ---------------------------------------------------------------------

  /** `pull(x, Some(bit))` on pin id while the pins in busy are borrowed. A
    * bus sets voltage `bit` to x and pulls the same bit of every pin it
    * drives (their errors are ignored); a view pulls bit start + bit of its
    * parent; a constant ignores it. Out of range, nothing changes. */
  function Pulled(ps: seq<Pin>, id: PinId, x: Voltage, bit: nat, busy: set<PinId>): (r: seq<Pin>)
    requires WF(ps) && id < |ps| && id !in busy
    ensures Kept(ps, r) && WF(r)
    ensures forall b | b in busy && b < |ps| :: r[b] == ps[b]
    decreases Free(|ps|, busy), 0, 0
  {
    assert PinOk(ps, ps[id]);
    Borrow(|ps|, busy, id);
    match ps[id]
    case Bus(w, st, cs) =>
      if bit >= w then ps
      else
        var ps1 := ps[id := Bus(w, st[bit := x], cs)];
        assert Kept(ps, ps1);
        KeptWF(ps, ps1);
        PullPush(ps1, cs, 0, x, bit, busy + {id})
    case Constant(_) => ps
    case InView(par, s, w) =>
      if bit >= w || par in busy then ps else Pulled(ps, par, x, s + bit, busy + {id})
    case OutView(par, s, w, _) =>
      if bit >= w || par in busy then ps else Pulled(ps, par, x, s + bit, busy + {id})
  }

  /** The loop of `propagate_voltage`: from the k-th driven pin on, each
    * one not borrowed is pulled at the same bit. */
  function PullPush(ps: seq<Pin>, cs: seq<PinId>, k: nat, x: Voltage, bit: nat, busy: set<PinId>): (r: seq<Pin>)
    requires WF(ps) && Targets(ps, cs) && k <= |cs|
    ensures Kept(ps, r) && WF(r)
    ensures forall b | b in busy && b < |ps| :: r[b] == ps[b]
    decreases Free(|ps|, busy), 1, |cs| - k
  {
    if k == |cs| then ps
    else
      var c := cs[k];
      var ps1 := if c in busy then ps else Pulled(ps, c, x, bit, busy);
      PullPush(ps1, cs, k + 1, x, bit, busy)
  }

  /** Whether `pull` or `toggle` on pin id answers `Ok`: the bit is inside
    * the pin (a constant accepts any bit), and a view's parent is free. */
  predicate PullOk(ps: seq<Pin>, id: PinId, bit: nat, busy: set<PinId>)
    requires id < |ps|
  {
    match ps[id]
    case Bus(w, _, _) => bit < w
    case Constant(_) => true
    case InView(par, _, w) => bit < w && par !in busy
    case OutView(par, _, w, _) => bit < w && par !in busy
  }

  /** `toggle(Some(bit))`: a bus pulls bit `bit` to the flip of its voltage;
    * a view toggles bit start + bit of its parent; a constant ignores it. */
  function Toggled(ps: seq<Pin>, id: PinId, bit: nat, busy: set<PinId>): (r: seq<Pin>)
    requires WF(ps) && id < |ps| && id !in busy
    ensures Kept(ps, r) && WF(r)
    ensures forall b | b in busy && b < |ps| :: r[b] == ps[b]
    decreases Free(|ps|, busy)
  {
    assert PinOk(ps, ps[id]);
    Borrow(|ps|, busy, id);
    match ps[id]
    case Bus(w, st, _) =>
      if bit >= w then ps else Pulled(ps, id, Flip(st[bit]), bit, busy)
    case Constant(_) => ps
    case InView(par, s, w) =>
      if bit >= w || par in busy then ps else Toggled(ps, par, s + bit, busy + {id})
    case OutView(par, s, w, _) =>
      if bit >= w || par in busy then ps else Toggled(ps, par, s + bit, busy + {id})
  }

  /** `voltage(Some(bit))` of a bus: voltage `bit`, or an error past the width. */
  function BusVoltageAt(p: Pin, bit: nat): (r: Result<Voltage>)
    requires p.Bus? && |p.state| == p.width
    ensures r.Err? <==> bit >= p.width
    ensures r.Ok? ==> r.value == p.state[bit]
  {
    if bit >= p.width then Err(Hardware) else Ok(p.state[bit])
  }

  /** `voltage(Some(bit))` of any pin: a view reads bit start + bit of its
    * parent; a constant has the single bit 0. */
  function VoltageOf(ps: seq<Pin>, id: PinId, bit: nat): (r: Result<Voltage>)
    requires WF(ps) && id < |ps|
    ensures r.Err? ==> r.fault == Hardware
  {
    assert PinOk(ps, ps[id]);
    match ps[id]
    case Bus(_, _, _) => BusVoltageAt(ps[id], bit)
    case Constant(l) => if bit >= 1 then Err(Hardware) else Ok(l)
    case InView(par, s, w) => if bit >= w then Err(Hardware) else BusVoltageAt(ps[par], s + bit)
    case OutView(par, s, w, _) => if bit >= w then Err(Hardware) else BusVoltageAt(ps[par], s + bit)
  }

  /** The width every pin kind reports; a constant is 1 bit wide. */
  function WidthOf(p: Pin): nat
  {
    if p.Constant? then 1 else p.width
  }

  // ---------------------------------------------------------------------
  // connect.
  // ---------------------------------------------------------------------

  /** Replacing a pin by one of the same kind and width keeps the arena valid. */
  lemma ReplaceWF(ps: seq<Pin>, id: PinId, p: Pin)
    requires WF(ps) && id < |ps| && PinOk(ps, p)
    requires ps[id].Bus? ==> p.Bus? && p.width == ps[id].width
    ensures WF(ps[id := p])
  {
    var r := ps[id := p];
    forall i | 0 <= i < |r|
      ensures PinOk(r, r[i])
    {
      assert PinOk(ps, ps[i]);
    }
  }

  /** `connect(t)` on pin id while the pins in busy are borrowed. A bus or
    * an `OutSubBus` first writes its current value into t (unless t is
    * borrowed, itself included) and then records t among the pins it
    * drives; an `InSubBus` hands the connection to its parent; a constant
    * ignores it. An `OutSubBus` connected to its own parent would read
    * that parent while holding it borrowed, a panic; the write is skipped
    * there, as at every other borrowed parent. */
  function Connected(ps: seq<Pin>, id: PinId, t: PinId, busy: set<PinId>): (r: seq<Pin>)
    requires WF(ps) && id < |ps| && t < |ps| && id !in busy
    ensures |r| == |ps| && WF(r)
    ensures forall b | b in busy && b < |ps| :: r[b] == ps[b]
    decreases Free(|ps|, busy)
  {
    assert PinOk(ps, ps[id]);
    Borrow(|ps|, busy, id);
    match ps[id]
    case Bus(w, st, cs) =>
      var ps1 := if t == id || t in busy then ps else SetV(ps, t, Pack(st), busy + {id});
      assert ps1[id] == ps[id];
      ReplaceWF(ps1, id, Bus(w, st, cs + [t]));
      ps1[id := Bus(w, st, cs + [t])]
    case Constant(_) => ps
    case InView(par, s, w) =>
      if par in busy then ps else Connected(ps, par, t, busy + {id})
    case OutView(par, s, w, cs) =>
      var ps1 := if t == id || t == par || t in busy then ps else SetV(ps, t, Value(ps, id), busy + {id});
      assert ps1[id] == ps[id];
      assert Same(ps[par], ps1[par]);
      ReplaceWF(ps1, id, OutView(par, s, w, cs + [t]));
      ps1[id := OutView(par, s, w, cs + [t])]
  }

  // ---------------------------------------------------------------------
  // What a write does to the pin written.
  // ---------------------------------------------------------------------

  /** A bus write stores the spread of v in the bus itself and in no
    * other pin's place but those it drives. */
  lemma SetBusLocal(ps: seq<Pin>, id: PinId, v: Word, busy: set<PinId>)
    requires WF(ps) && id < |ps| && id !in busy && ps[id].Bus?
    ensures SetV(ps, id, v, busy)[id] == ps[id].(state := Unpack(v, ps[id].width))
  {
  }

  /** `set_bus_voltage(v)` then `bus_voltage()` on a bus gives back v with
    * the bits above the width dropped; at width 16 it gives back v. */
  lemma SetBusVoltageRoundTrip(ps: seq<Pin>, id: PinId, v: Word, busy: set<PinId>)
    requires WF(ps) && id < |ps| && id !in busy && ps[id].Bus?
    ensures Value(SetV(ps, id, v, busy), id) == And(v, Mask(ps[id].width))
    ensures ps[id].width == 16 ==> Value(SetV(ps, id, v, busy), id) == v
  {
    assert PinOk(ps, ps[id]);
    SetBusLocal(ps, id, v, busy);
    PackUnpack(v, ps[id].width);
    if ps[id].width == 16 {
      PackUnpackFull(v);
    }
  }

  /** A pulled bus holds x at `bit` and its other voltages; out of range
    * it is unchanged. */
  lemma PullBusLocal(ps: seq<Pin>, id: PinId, x: Voltage, bit: nat, busy: set<PinId>)
    requires WF(ps) && id < |ps| && id !in busy && ps[id].Bus?
    ensures Pulled(ps, id, x, bit, busy)[id]
      == if bit < ps[id].width then ps[id].(state := ps[id].state[bit := x]) else ps[id]
  {
  }

  /** `pull(x, Some(bit))` inside the width sets bit `bit` of the bus value
    * to x and keeps every other bit; past the width nothing changes and
    * the pull reports an error. */
  lemma PullSetsOneBit(ps: seq<Pin>, id: PinId, x: Voltage, bit: nat)
    requires WF(ps) && id < |ps| && ps[id].Bus?
    ensures PullOk(ps, id, bit, {}) <==> bit < ps[id].width
    ensures bit >= ps[id].width ==> Pulled(ps, id, x, bit, {}) == ps
    ensures bit < ps[id].width ==> forall i: nat ::
      (Bit(Value(Pulled(ps, id, x, bit, {}), id), i) <==>
        if i == bit then x == HIGH else Bit(Value(ps, id), i))
  {
    assert PinOk(ps, ps[id]);
    var st := ps[id].state;
    if bit < ps[id].width {
      PullBusLocal(ps, id, x, bit, {});
      forall i: nat
        ensures Bit(Value(Pulled(ps, id, x, bit, {}), id), i) <==>
          if i == bit then x == HIGH else Bit(Value(ps, id), i)
      {
        PackBit(st[bit := x], i);
        PackBit(st, i);
      }
    }
  }

  /** Toggling the same bit of a bus twice restores the bus, when that bit
    * holds HIGH or LOW. */
  lemma ToggleTwice(ps: seq<Pin>, id: PinId, bit: nat)
    requires WF(ps) && id < |ps| && ps[id].Bus? && bit < ps[id].width
    requires ps[id].state[bit] == LOW || ps[id].state[bit] == HIGH
    ensures Toggled(Toggled(ps, id, bit, {}), id, bit, {})[id] == ps[id]
  {
    var Bus(w, st, cs) := ps[id];
    var r1 := Toggled(ps, id, bit, {});
    PullBusLocal(ps, id, Flip(st[bit]), bit, {});
    assert r1[id] == Bus(w, st[bit := Flip(st[bit])], cs);
    PullBusLocal(r1, id, Flip(Flip(st[bit])), bit, {});
    assert st[bit := Flip(st[bit])][bit := Flip(Flip(st[bit]))] == st;
  }

  /** `voltage(Some(i))` of a bus of HIGH/LOW voltages is bit i of its
    * `bus_voltage()`, and an error exactly past the width. */
  lemma VoltageIsBit(ps: seq<Pin>, id: PinId, i: nat)
    requires WF(ps) && id < |ps| && ps[id].Bus? && Binary(ps[id].state)
    ensures VoltageOf(ps, id, i).Err? <==> i >= ps[id].width
    ensures VoltageOf(ps, id, i).Ok? ==>
      VoltageOf(ps, id, i).value == if Bit(Value(ps, id), i) then HIGH else LOW
  {
    assert PinOk(ps, ps[id]);
    PackBit(ps[id].state, i);
  }

  // ---------------------------------------------------------------------
  // Views.
  // ---------------------------------------------------------------------

  /** The bits of a parent bus after it stores the splice of v into its
    * field [s, s + w). */
  lemma SpliceStored(st: seq<Voltage>, s: nat, w: nat, v: Word, i: nat)
    requires |st| <= 16 && s + w <= |st|
    ensures Bit(Pack(Unpack(Splice(Pack(st), s, w, v), |st|)), i) <==>
      if s <= i < s + w then Bit(v, i - s) else Bit(Pack(st), i)
  {
    var x := Splice(Pack(st), s, w, v);
    PackBit(Unpack(x, |st|), i);
    SpliceBit(Pack(st), s, w, v, i);
    PackBit(st, i);
  }

  /** An `InSubBus` write rewrites exactly bits [start, start + width) of
    * the parent with the low bits of v and leaves the others. */
  lemma InViewWrite(ps: seq<Pin>, id: PinId, v: Word, busy: set<PinId>)
    requires WF(ps) && id < |ps| && id !in busy && ps[id].InView? && ps[id].parent !in busy
    ensures forall i: nat ::
      (Bit(Value(SetV(ps, id, v, busy), ps[id].parent), i) <==>
        if ps[id].start <= i < ps[id].start + ps[id].width then Bit(v, i - ps[id].start)
        else Bit(Value(ps, ps[id].parent), i))
  {
    assert PinOk(ps, ps[id]);
    var InView(par, s, w) := ps[id];
    var st := ps[par].state;
    var r := SetV(ps, id, v, busy);
    SetBusLocal(ps, par, Splice(Pack(st), s, w, v), busy + {id});
    assert r[par].state == Unpack(Splice(Pack(st), s, w, v), |st|);
    forall i: nat
      ensures Bit(Value(r, par), i) <==> if s <= i < s + w then Bit(v, i - s) else Bit(Value(ps, par), i)
    {
      SpliceStored(st, s, w, v, i);
    }
  }

  /** Reading an `InSubBus` back after a write gives the low bits of
    * what was written. */
  lemma InViewReadBack(ps: seq<Pin>, id: PinId, v: Word, busy: set<PinId>)
    requires WF(ps) && id < |ps| && id !in busy && ps[id].InView? && ps[id].parent !in busy
    ensures Value(SetV(ps, id, v, busy), id) == And(v, Mask(ps[id].width))
  {
    assert PinOk(ps, ps[id]);
    var InView(par, s, w) := ps[id];
    var st := ps[par].state;
    var r := SetV(ps, id, v, busy);
    SetBusLocal(ps, par, Splice(Pack(st), s, w, v), busy + {id});
    assert r[par].state == Unpack(Splice(Pack(st), s, w, v), |st|);
    assert r[id] == ps[id];
    SplicedSlice(st, s, w, v);
  }

  /** Bits [s, s + w) of a state spliced with v, sliced out again, are the
    * low w bits of v. */
  lemma SplicedSlice(st: seq<Voltage>, s: nat, w: nat, v: Word)
    requires |st| <= 16 && s + w <= |st|
    ensures Slice(Pack(Unpack(Splice(Pack(st), s, w, v), |st|)), s, w) == And(v, Mask(w))
  {
    var y := Splice(Pack(st), s, w, v);
    PackUnpack(y, |st|);
    SliceMasked(y, |st|, s, w);
    SliceSplice(Pack(st), s, w, v);
  }

  /** A view's `pull`, `toggle` and `voltage` at bit b act on bit start + b
    * of the parent, and fail when b is past the view's width. */
  lemma ViewForwards(ps: seq<Pin>, id: PinId, x: Voltage, b: nat)
    requires WF(ps) && id < |ps| && (ps[id].InView? || ps[id].OutView?)
    ensures PullOk(ps, id, b, {}) <==> b < ps[id].width
    ensures VoltageOf(ps, id, b).Err? <==> b >= ps[id].width
    ensures b >= ps[id].width ==> Pulled(ps, id, x, b, {}) == ps && Toggled(ps, id, b, {}) == ps
    ensures b < ps[id].width ==>
      Pulled(ps, id, x, b, {}) == Pulled(ps, ps[id].parent, x, ps[id].start + b, {id}) &&
      Toggled(ps, id, b, {}) == Toggled(ps, ps[id].parent, ps[id].start + b, {id}) &&
      VoltageOf(ps, id, b) == VoltageOf(ps, ps[id].parent, ps[id].start + b)
  {
    assert PinOk(ps, ps[id]);
    assert {} + {id} == {id};
  }

  /** Reading a view gives (parent >> start) & mask(width). */
  lemma ViewRead(ps: seq<Pin>, id: PinId)
    requires WF(ps) && id < |ps| && (ps[id].InView? || ps[id].OutView?)
    ensures Value(ps, id) == And(Shr(Value(ps, ps[id].parent), ps[id].start), Mask(ps[id].width))
  {
  }

  // ---------------------------------------------------------------------
  // Connections.
  // ---------------------------------------------------------------------

  /** `connect(t)` on a bus copies the bus value into a target bus at once
    * (masked to the target's width) and records t as the last pin the bus
    * drives; the bus's own voltages do not change. */
  lemma ConnectCopies(ps: seq<Pin>, id: PinId, t: PinId)
    requires WF(ps) && id < |ps| && t < |ps| && t != id && ps[id].Bus? && ps[t].Bus?
    ensures Connected(ps, id, t, {})[id] == Bus(ps[id].width, ps[id].state, ps[id].conns + [t])
    ensures Value(Connected(ps, id, t, {}), t) == And(Value(ps, id), Mask(ps[t].width))
  {
    assert PinOk(ps, ps[t]);
    var ps1 := SetV(ps, t, Value(ps, id), {} + {id});
    SetBusLocal(ps, t, Value(ps, id), {} + {id});
    PackUnpack(Value(ps, id), ps[t].width);
    assert Connected(ps, id, t, {}) == ps1[id := Bus(ps[id].width, ps[id].state, ps[id].conns + [t])];
  }

  /** `connect(t)` from a bus to a bus that drives nothing: t takes the
    * bus value at its own width, the bus records t, and nothing else
    * changes. */
  lemma ConnectLeaf(ps: seq<Pin>, id: PinId, t: PinId)
    requires WF(ps) && id < |ps| && ps[id].Bus? && Leaf(ps, t) && t != id
    ensures Connected(ps, id, t, {}) ==
      ps[t := Bus(ps[t].width, Unpack(Value(ps, id), ps[t].width), [])][id := Bus(ps[id].width, ps[id].state, ps[id].conns + [t])]
  {
    assert {} + {id} == {id};
    SetLeaf(ps, t, Value(ps, id), {id});
  }

  /** The same, pin by pin: the bus gains t as its last driven pin, t
    * stays a bus that drives nothing, and every other pin is unchanged. */
  lemma ConnectLeafOnly(ps: seq<Pin>, id: PinId, t: PinId)
    requires WF(ps) && id < |ps| && ps[id].Bus? && Leaf(ps, t) && t != id
    ensures var r := Connected(ps, id, t, {});
      && r[id].Bus? && r[id].conns == ps[id].conns + [t] && Leaf(r, t)
      && forall i | 0 <= i < |ps| && i != id && i != t :: r[i] == ps[i]
  {
    ConnectLeaf(ps, id, t);
  }

  /** An `OutSubBus` connected to its own parent only records it: no pin
    * but the view changes, and the parent keeps its value. */
  lemma ConnectOwnParent(ps: seq<Pin>, id: PinId)
    requires WF(ps) && id < |ps| && ps[id].OutView?
    ensures var v := ps[id];
      var r := Connected(ps, id, v.parent, {});
      && r == ps[id := OutView(v.parent, v.start, v.width, v.conns + [v.parent])]
      && Value(r, ps[id].parent) == Value(ps, ps[id].parent)
  {
    assert PinOk(ps, ps[id]);
  }

  /** A bus connected to a view of itself only records it: the view's
    * write would borrow the bus again, a panic, and is skipped. */
  lemma ConnectOwnView(ps: seq<Pin>, id: PinId, t: PinId)
    requires WF(ps) && id < |ps| && t < |ps| && ps[id].Bus?
    requires (ps[t].InView? || ps[t].OutView?) && ps[t].parent == id
    ensures Connected(ps, id, t, {}) == ps[id := Bus(ps[id].width, ps[id].state, ps[id].conns + [t])]
  {
    assert {} + {id} == {id};
  }

  /** An `InSubBus` hands a connection to its parent bus. */
  lemma ConnectThroughView(ps: seq<Pin>, id: PinId, t: PinId)
    requires WF(ps) && id < |ps| && t < |ps| && ps[id].InView?
    ensures Connected(ps, id, t, {}) == Connected(ps, ps[id].parent, t, {id})
  {
    assert {} + {id} == {id};
  }

  /** A bus that drives no pin. */
  predicate Leaf(ps: seq<Pin>, c: PinId)
  {
    c < |ps| && ps[c].Bus? && ps[c].conns == []
  }

  /** A write to a leaf bus changes that bus alone. */
  lemma SetLeaf(ps: seq<Pin>, c: PinId, v: Word, busy: set<PinId>)
    requires WF(ps) && Leaf(ps, c) && c !in busy
    ensures SetV(ps, c, v, busy) == ps[c := ps[c].(state := Unpack(v, ps[c].width))]
  {
    var Bus(w, st, cs) := ps[c];
    var ps1 := ps[c := Bus(w, Unpack(v, w), cs)];
    assert PinOk(ps, ps[c]);
    KeptWF(ps, ps1);
    assert Push(ps1, cs, 0, v, busy + {c}) == ps1;
  }

  /** Pushing v to leaf buses stores the spread of v in each of them and
    * changes no other pin. */
  lemma {:induction false} PushLeaves(ps: seq<Pin>, cs: seq<PinId>, k: nat, v: Word, busy: set<PinId>)
    requires WF(ps) && Targets(ps, cs) && k <= |cs|
    requires forall j | 0 <= j < |cs| :: Leaf(ps, cs[j]) && cs[j] !in busy
    ensures forall j | k <= j < |cs| && Leaf(ps, cs[j]) ::
      Push(ps, cs, k, v, busy)[cs[j]] == ps[cs[j]].(state := Unpack(v, ps[cs[j]].width))
    ensures forall i | 0 <= i < |ps| && i !in cs[k..] :: Push(ps, cs, k, v, busy)[i] == ps[i]
    decreases |cs| - k
  {
    if k < |cs| {
      var c := cs[k];
      var ps1 := SetV(ps, c, v, busy);
      SetLeaf(ps, c, v, busy);
      forall j | 0 <= j < |cs|
        ensures Leaf(ps1, cs[j]) && cs[j] !in busy
      {
        assert Same(ps[cs[j]], ps1[cs[j]]);
      }
      PushLeaves(ps1, cs, k + 1, v, busy);
      assert forall i | 0 <= i < |ps| && i !in cs[k..] :: i !in cs[k + 1..] && i != c;
      forall j | k <= j < |cs| && Leaf(ps, cs[j])
        ensures Push(ps, cs, k, v, busy)[cs[j]] == ps[cs[j]].(state := Unpack(v, ps[cs[j]].width))
      {
        if cs[j] !in cs[k + 1..] {
          assert cs[j] == c;
        }
      }
    }
  }

  /** `set_bus_voltage(v)` on a bus pushes v to every pin it drives: each
    * driven bus that drives nothing further ends up holding v masked to
    * its own width. */
  lemma SetBusVoltageDrives(ps: seq<Pin>, id: PinId, v: Word)
    requires WF(ps) && id < |ps| && ps[id].Bus?
    requires forall j | 0 <= j < |ps[id].conns| :: Leaf(ps, ps[id].conns[j]) && ps[id].conns[j] != id
    ensures forall j | 0 <= j < |ps[id].conns| && Leaf(ps, ps[id].conns[j]) ::
      Value(SetV(ps, id, v, {}), ps[id].conns[j]) == And(v, Mask(ps[ps[id].conns[j]].width))
  {
    assert PinOk(ps, ps[id]);
    var Bus(w, st, cs) := ps[id];
    var ps1 := ps[id := Bus(w, Unpack(v, w), cs)];
    KeptWF(ps, ps1);
    assert {} + {id} == {id};
    PushLeaves(ps1, cs, 0, v, {id});
    forall j | 0 <= j < |cs| && Leaf(ps, cs[j])
      ensures Value(SetV(ps, id, v, {}), cs[j]) == And(v, Mask(ps[cs[j]].width))
    {
      assert PinOk(ps, ps[cs[j]]);
      PackUnpack(v, ps[cs[j]].width);
    }
  }

  /** A bus with bit `bit` pulled to x; past its width the pull changes nothing. */
  function PullBit(p: Pin, x: Voltage, bit: nat): (r: Pin)
    requires p.Bus?
    ensures r.Bus? && r.width == p.width && r.conns == p.conns && |r.state| == |p.state|
    ensures forall i | 0 <= i < |p.state| :: r.state[i] == (if i == bit && bit < p.width then x else p.state[i])
  {
    if bit < p.width && bit < |p.state| then p.(state := p.state[bit := x]) else p
  }

  /** A pull of a leaf bus changes that bus alone. */
  lemma PulledLeaf(ps: seq<Pin>, c: PinId, x: Voltage, bit: nat, busy: set<PinId>)
    requires WF(ps) && Leaf(ps, c) && c !in busy
    ensures Pulled(ps, c, x, bit, busy) == ps[c := PullBit(ps[c], x, bit)]
  {
    assert PinOk(ps, ps[c]);
    var Bus(w, st, cs) := ps[c];
    if bit < w {
      var ps1 := ps[c := Bus(w, st[bit := x], cs)];
      KeptWF(ps, ps1);
      assert PullPush(ps1, cs, 0, x, bit, busy + {c}) == ps1;
    }
  }

  /** The loop of `propagate_voltage` over leaf buses pulls bit `bit` of
    * each of them to x and changes no other pin. */
  lemma {:induction false} PullLeaves(ps: seq<Pin>, cs: seq<PinId>, k: nat, x: Voltage, bit: nat, busy: set<PinId>)
    requires WF(ps) && Targets(ps, cs) && k <= |cs|
    requires forall j | 0 <= j < |cs| :: Leaf(ps, cs[j]) && cs[j] !in busy
    ensures forall j | k <= j < |cs| && Leaf(ps, cs[j]) :: PullPush(ps, cs, k, x, bit, busy)[cs[j]] == PullBit(ps[cs[j]], x, bit)
    ensures forall i | 0 <= i < |ps| && i !in cs[k..] :: PullPush(ps, cs, k, x, bit, busy)[i] == ps[i]
    decreases |cs| - k
  {
    if k < |cs| {
      var c := cs[k];
      var ps1 := Pulled(ps, c, x, bit, busy);
      PulledLeaf(ps, c, x, bit, busy);
      assert PinOk(ps, ps[c]);
      forall j | 0 <= j < |cs|
        ensures Leaf(ps1, cs[j]) && cs[j] !in busy
      {
        assert Same(ps[cs[j]], ps1[cs[j]]);
      }
      PullLeaves(ps1, cs, k + 1, x, bit, busy);
      assert forall i | 0 <= i < |ps| && i !in cs[k..] :: i !in cs[k + 1..] && i != c;
      forall j | k <= j < |cs| && Leaf(ps, cs[j])
        ensures PullPush(ps, cs, k, x, bit, busy)[cs[j]] == PullBit(ps[cs[j]], x, bit)
      {
        assert PinOk(ps, ps[cs[j]]);
        if cs[j] !in cs[k + 1..] {
          assert cs[j] == c;
        } else if cs[j] == c {
          assert PullBit(ps1[c], x, bit) == PullBit(ps[c], x, bit);
        }
      }
    }
  }

  /** `pull(x, Some(bit))` on a bus that drives only leaf buses: the bus
    * and every bus it drives hold x at that bit, and no other pin changes. */
  lemma PullDrives(ps: seq<Pin>, id: PinId, x: Voltage, bit: nat)
    requires WF(ps) && id < |ps| && ps[id].Bus? && bit < ps[id].width
    requires forall j | 0 <= j < |ps[id].conns| :: Leaf(ps, ps[id].conns[j]) && ps[id].conns[j] != id
    ensures Pulled(ps, id, x, bit, {})[id] == ps[id].(state := ps[id].state[bit := x])
    ensures forall j | 0 <= j < |ps[id].conns| && Leaf(ps, ps[id].conns[j]) ::
      Pulled(ps, id, x, bit, {})[ps[id].conns[j]] == PullBit(ps[ps[id].conns[j]], x, bit)
    ensures forall i | 0 <= i < |ps| && i != id && i !in ps[id].conns :: Pulled(ps, id, x, bit, {})[i] == ps[i]
  {
    assert PinOk(ps, ps[id]);
    var Bus(w, st, cs) := ps[id];
    var ps1 := ps[id := Bus(w, st[bit := x], cs)];
    KeptWF(ps, ps1);
    assert {} + {id} == {id};
    forall j | 0 <= j < |cs|
      ensures Leaf(ps1, cs[j]) && cs[j] !in {id}
    {
    }
    PullLeaves(ps1, cs, 0, x, bit, {id});
    assert cs[0..] == cs;
  }

  // ---------------------------------------------------------------------
  // Allocation and widening.
  // ---------------------------------------------------------------------

  /** Adding a pin whose references are already in the arena keeps it valid. */
  lemma GrowWF(ps: seq<Pin>, p: Pin)
    requires WF(ps) && PinOk(ps, p)
    ensures WF(ps + [p])
  {
    var r := ps + [p];
    forall i | 0 <= i < |r|
      ensures PinOk(r, r[i])
    {
      if i < |ps| {
        assert PinOk(ps, ps[i]);
      }
    }
  }

  /** The pin `create_input_subbus` (output false) or `create_output_subbus`
    * (output true) makes for a range that is not the whole pin; the
    * single-bit branch and the general one agree on the field. */
  function RangeView(parent: PinId, range: PinRange, output: bool): (p: Pin)
    requires range.Valid() && !range.IsFullPin()
    ensures (p.InView? || p.OutView?) && (p.InView? <==> !output)
    ensures p.parent == parent && p.start == range.StartIndex() && p.width == range.Width()
  {
    var w := if range.IsSingleBit() then 1 else range.Width();
    if output then OutView(parent, range.StartIndex(), w, []) else InView(parent, range.StartIndex(), w)
  }

  /** `ensure_width(n)` on a bus narrower than n: the bus grows to n bits,
    * the new ones LOW; a bus at least n wide is unchanged. */
  function Widen(p: Pin, n: nat): Pin
    requires p.Bus?
  {
    if p.width < n then Bus(n, p.state + seq(n - p.width, _ => LOW), p.conns) else p
  }

  /** LOW voltages past the end add nothing to a packed value. */
  lemma PackPad(st: seq<Voltage>, k: nat)
    requires |st| + k <= 16
    ensures Pack(st + seq(k, _ => LOW)) == Pack(st)
  {
    var t := st + seq(k, _ => LOW);
    forall i | 0 <= i < 16
      ensures Bit(Pack(t), i) == Bit(Pack(st), i)
    {
      PackBit(t, i);
      PackBit(st, i);
    }
    WordsEqual(Pack(t), Pack(st));
  }

  /** Widening a bus up to 16 bits keeps the arena valid and makes the bus
    * at least n wide, with the same connections. */
  lemma WidenWF(ps: seq<Pin>, id: PinId, n: nat)
    requires WF(ps) && id < |ps| && ps[id].Bus? && n <= 16
    ensures WF(ps[id := Widen(ps[id], n)])
    ensures Widen(ps[id], n).Bus? && Widen(ps[id], n).conns == ps[id].conns
    ensures Widen(ps[id], n).width == if ps[id].width < n then n else ps[id].width
  {
    var r := ps[id := Widen(ps[id], n)];
    assert PinOk(ps, ps[id]);
    forall i | 0 <= i < |r|
      ensures PinOk(r, r[i])
    {
      assert PinOk(ps, ps[i]);
    }
  }

  /** Widening a bus keeps the value of every pin: the bus itself and the
    * views over it read the same word as before. */
  lemma WidenValue(ps: seq<Pin>, id: PinId, n: nat, i: PinId)
    requires WF(ps) && id < |ps| && ps[id].Bus? && n <= 16 && i < |ps|
    ensures WF(ps[id := Widen(ps[id], n)])
    ensures Value(ps[id := Widen(ps[id], n)], i) == Value(ps, i)
  {
    WidenWF(ps, id, n);
    assert PinOk(ps, ps[id]);
    assert Pack(Widen(ps[id], n).state) == Pack(ps[id].state) by {
      if ps[id].width < n {
        PackPad(ps[id].state, n - ps[id].width);
      }
    }
    assert PinOk(ps, ps[i]);
  }

  // ---------------------------------------------------------------------
  // The arena object.
  // ---------------------------------------------------------------------

  /** Every pin the simulation has allocated; an `Rc<RefCell<dyn Pin>>` of
    * the engine is an index into `pins`. The methods are the engine's pin
    * operations, each proved to do what the function of the same name
    * above describes. */
  class Arena {
    var pins: seq<Pin>

    predicate Valid()
      reads this
    {
      WF(pins)
    }

    constructor()
      ensures Valid() && pins == []
    {
      pins := [];
    }

    /** `Bus::new`: a bus of `width` LOW voltages that drives nothing; the
      * engine aborts unless 1 <= width <= 16. */
    method NewBus(width: nat) returns (id: PinId)
      requires Valid() && 1 <= width <= 16
      modifies this
      ensures Valid() && id == |old(pins)|
      ensures pins == old(pins) + [Bus(width, seq(width, _ => LOW), [])]
      ensures Value(pins, id) == 0
    {
      var p := Bus(width, seq(width, _ => LOW), []);
      GrowWF(pins, p);
      id := |pins|;
      pins := pins + [p];
      PackLow(width);
    }

    /** `ConstantPin::new(name)`: "false"/"0" is LOW, "true"/"1" HIGH, any
      * other name an error. */
    method NewConstant(name: string) returns (r: Result<PinId>)
      requires Valid()
      modifies this
      ensures Valid()
      ensures r.Ok? <==> IsConstantPin(name)
      ensures r.Ok? ==> r.value == |old(pins)| && pins == old(pins) + [Constant(ConstantLevel(name).value)]
      ensures r.Err? ==> r.fault == Hardware && pins == old(pins)
    {
      var level := ConstantLevel(name);
      if level.Err? {
        r := Err(level.fault);
      } else {
        GrowWF(pins, Constant(level.value));
        r := Ok(|pins|);
        pins := pins + [Constant(level.value)];
      }
    }

    /** `InSubBus::new(parent, start, width)`: an error when the field
      * does not fit the parent. */
    method NewInView(parent: PinId, start: nat, width: nat) returns (r: Result<PinId>)
      requires Valid() && parent < |pins| && pins[parent].Bus?
      modifies this
      ensures Valid()
      ensures r.Ok? <==> start + width <= old(pins)[parent].width
      ensures r.Ok? ==> r.value == |old(pins)| && pins == old(pins) + [InView(parent, start, width)]
      ensures r.Err? ==> r.fault == Hardware && pins == old(pins)
    {
      if start + width > pins[parent].width {
        r := Err(Hardware);
      } else {
        GrowWF(pins, InView(parent, start, width));
        r := Ok(|pins|);
        pins := pins + [InView(parent, start, width)];
      }
    }

    /** `OutSubBus::new(parent, start, width)`: the same check; the new
      * view drives nothing yet. */
    method NewOutView(parent: PinId, start: nat, width: nat) returns (r: Result<PinId>)
      requires Valid() && parent < |pins| && pins[parent].Bus?
      modifies this
      ensures Valid()
      ensures r.Ok? <==> start + width <= old(pins)[parent].width
      ensures r.Ok? ==> r.value == |old(pins)| && pins == old(pins) + [OutView(parent, start, width, [])]
      ensures r.Err? ==> r.fault == Hardware && pins == old(pins)
    {
      if start + width > pins[parent].width {
        r := Err(Hardware);
      } else {
        GrowWF(pins, OutView(parent, start, width, []));
        r := Ok(|pins|);
        pins := pins + [OutView(parent, start, width, [])];
      }
    }

    /** `create_input_subbus`: a whole-pin range is the parent itself;
      * otherwise a new `InSubBus` over the range, or an error when the
      * range does not fit. */
    method CreateInputSubBus(parent: PinId, range: PinRange) returns (r: Result<PinId>)
      requires Valid() && parent < |pins| && pins[parent].Bus? && range.Valid()
      modifies this
      ensures Valid()
      ensures range.IsFullPin() ==> r == Ok(parent) && pins == old(pins)
      ensures !range.IsFullPin() ==>
        (r.Ok? <==> range.StartIndex() + range.Width() <= old(pins)[parent].width)
      ensures !range.IsFullPin() && r.Ok? ==>
        r.value == |old(pins)| && pins == old(pins) + [RangeView(parent, range, false)]
      ensures r.Err? ==> r.fault == Hardware && pins == old(pins)
    {
      if range.IsFullPin() {
        r := Ok(parent);
      } else if range.IsSingleBit() {
        r := NewInView(parent, range.StartIndex(), 1);
      } else {
        r := NewInView(parent, range.StartIndex(), range.Width());
      }
    }

    /** `create_output_subbus`: the same, with an `OutSubBus`. */
    method CreateOutputSubBus(parent: PinId, range: PinRange) returns (r: Result<PinId>)
      requires Valid() && parent < |pins| && pins[parent].Bus? && range.Valid()
      modifies this
      ensures Valid()
      ensures range.IsFullPin() ==> r == Ok(parent) && pins == old(pins)
      ensures !range.IsFullPin() ==>
        (r.Ok? <==> range.StartIndex() + range.Width() <= old(pins)[parent].width)
      ensures !range.IsFullPin() && r.Ok? ==>
        r.value == |old(pins)| && pins == old(pins) + [RangeView(parent, range, true)]
      ensures r.Err? ==> r.fault == Hardware && pins == old(pins)
    {
      if range.IsFullPin() {
        r := Ok(parent);
      } else if range.IsSingleBit() {
        r := NewOutView(parent, range.StartIndex(), 1);
      } else {
        r := NewOutView(parent, range.StartIndex(), range.Width());
      }
    }

    /** `Bus::ensure_width(n)`: refuses n past 16; otherwise widens a
      * narrower bus and keeps every value. */
    method EnsureWidth(id: PinId, n: nat) returns (r: Result<()>)
      requires Valid() && id < |pins| && pins[id].Bus?
      modifies this
      ensures Valid()
      ensures r.Err? <==> n > 16
      ensures r.Err? ==> r.fault == Hardware && pins == old(pins)
      ensures r.Ok? ==> pins == old(pins)[id := Widen(old(pins)[id], n)]
      ensures forall i | 0 <= i < |old(pins)| :: Value(pins, i) == Value(old(pins), i)
    {
      if n > 16 {
        r := Err(Hardware);
      } else {
        WidenWF(pins, id, n);
        forall i | 0 <= i < |pins|
          ensures Value(pins[id := Widen(pins[id], n)], i) == Value(pins, i)
        {
          WidenValue(pins, id, n, i);
        }
        pins := pins[id := Widen(pins[id], n)];
        r := Ok(());
      }
    }

    /** `bus_voltage()`: a bus sets bit i of the result for each HIGH
      * voltage i; a constant is its level; a view reads its parent and
      * keeps its field. */
    method BusVoltage(id: PinId) returns (v: Word)
      requires Valid() && id < |pins|
      ensures v == Value(pins, id)
      decreases if pins[id].Bus? || pins[id].Constant? then 0 else 1
    {
      assert PinOk(pins, pins[id]);
      match pins[id]
      case Bus(w, st, _) =>
        v := 0;
        var i := 0;
        while i < w
          invariant 0 <= i <= w
          invariant v == Pack(st[..i])
        {
          PackPrefix(st, i);
          if st[i] == HIGH {
            v := Or(v, Unit(i));
          }
          i := i + 1;
        }
        assert st[..w] == st;
      case Constant(l) =>
        v := l;
      case InView(par, s, w) =>
        var pv := BusVoltage(par);
        v := Slice(pv, s, w);
      case OutView(par, s, w, _) =>
        var pv := BusVoltage(par);
        v := Slice(pv, s, w);
    }

    /** `set_bus_voltage(v)` while the pins in busy are borrowed. */
    method SetBusVoltage(id: PinId, v: Word, busy: set<PinId>)
      requires Valid() && id < |pins| && id !in busy
      modifies this
      ensures Valid() && pins == SetV(old(pins), id, v, busy)
      decreases Free(|pins|, busy), 0
    {
      assert PinOk(pins, pins[id]);
      Borrow(|pins|, busy, id);
      match pins[id]
      case Bus(w, st, cs) =>
        var s := st;
        var i := 0;
        while i < w
          invariant 0 <= i <= w && |s| == w && pins == old(pins)
          invariant forall j | 0 <= j < i :: s[j] == Unpack(v, w)[j]
        {
          TestBit(v, i);
          s := s[i := if And(v, Unit(i)) != 0 then HIGH else LOW];
          i := i + 1;
        }
        assert s == Unpack(v, w);
        var ps1 := pins[id := Bus(w, s, cs)];
        assert Kept(pins, ps1);
        KeptWF(pins, ps1);
        pins := ps1;
        PushVoltage(cs, v, busy + {id});
      case Constant(_) =>
      case InView(par, s, w) =>
        if par !in busy {
          var pv := BusVoltage(par);
          SetBusVoltage(par, Splice(pv, s, w, v), busy + {id});
        }
      case OutView(par, s, w, cs) =>
        if par !in busy {
          var cur := BusVoltage(id);
          PushVoltage(cs, cur, busy + {id});
          if v != cur {
            var pv := BusVoltage(par);
            SetBusVoltage(par, Splice(pv, s, w, v), busy + {id});
          }
        }
    }

    /** `propagate_bus_voltage` / `propagate_to_connections`: every driven
      * pin that is not borrowed receives v, in connection order. */
    method PushVoltage(cs: seq<PinId>, v: Word, busy: set<PinId>)
      requires Valid() && Targets(pins, cs)
      modifies this
      ensures Valid() && pins == Push(old(pins), cs, 0, v, busy)
      decreases Free(|pins|, busy), 1
    {
      var k := 0;
      while k < |cs|
        invariant k <= |cs| && Valid() && |pins| == |old(pins)| && Targets(pins, cs)
        invariant Push(pins, cs, k, v, busy) == Push(old(pins), cs, 0, v, busy)
      {
        if cs[k] !in busy {
          SetBusVoltage(cs[k], v, busy);
        }
        k := k + 1;
      }
    }

    /** `pull(x, Some(bit))` while the pins in busy are borrowed; answers
      * `Ok` exactly when `PullOk` holds. */
    method Pull(id: PinId, x: Voltage, bit: nat, busy: set<PinId>) returns (r: Result<()>)
      requires Valid() && id < |pins| && id !in busy
      modifies this
      ensures Valid() && pins == Pulled(old(pins), id, x, bit, busy)
      ensures r.Ok? <==> PullOk(old(pins), id, bit, busy)
      ensures r.Err? ==> r.fault == Hardware
      decreases Free(|pins|, busy), 0
    {
      assert PinOk(pins, pins[id]);
      Borrow(|pins|, busy, id);
      match pins[id]
      case Bus(w, st, cs) =>
        if bit >= w {
          r := Err(Hardware);
        } else {
          var ps1 := pins[id := Bus(w, st[bit := x], cs)];
          assert Kept(pins, ps1);
          KeptWF(pins, ps1);
          pins := ps1;
          PullAll(cs, x, bit, busy + {id});
          r := Ok(());
        }
      case Constant(_) =>
        r := Ok(());
      case InView(par, s, w) =>
        if bit >= w || par in busy {
          r := Err(Hardware);
        } else {
          r := Pull(par, x, s + bit, busy + {id});
        }
      case OutView(par, s, w, _) =>
        if bit >= w || par in busy {
          r := Err(Hardware);
        } else {
          r := Pull(par, x, s + bit, busy + {id});
        }
    }

    /** `propagate_voltage`: every driven pin that is not borrowed is
      * pulled at the same bit; their answers are dropped. */
    method PullAll(cs: seq<PinId>, x: Voltage, bit: nat, busy: set<PinId>)
      requires Valid() && Targets(pins, cs)
      modifies this
      ensures Valid() && pins == PullPush(old(pins), cs, 0, x, bit, busy)
      decreases Free(|pins|, busy), 1
    {
      var k := 0;
      while k < |cs|
        invariant k <= |cs| && Valid() && |pins| == |old(pins)| && Targets(pins, cs)
        invariant PullPush(pins, cs, k, x, bit, busy) == PullPush(old(pins), cs, 0, x, bit, busy)
      {
        if cs[k] !in busy {
          var ignored := Pull(cs[k], x, bit, busy);
        }
        k := k + 1;
      }
    }

    /** `toggle(Some(bit))` while the pins in busy are borrowed; answers
      * `Ok` exactly when a pull of that bit would. */
    method Toggle(id: PinId, bit: nat, busy: set<PinId>) returns (r: Result<()>)
      requires Valid() && id < |pins| && id !in busy
      modifies this
      ensures Valid() && pins == Toggled(old(pins), id, bit, busy)
      ensures r.Ok? <==> PullOk(old(pins), id, bit, busy)
      ensures r.Err? ==> r.fault == Hardware
      decreases Free(|pins|, busy)
    {
      assert PinOk(pins, pins[id]);
      Borrow(|pins|, busy, id);
      match pins[id]
      case Bus(w, st, _) =>
        var cur := VoltageOf(pins, id, bit);
        if cur.Err? {
          r := Err(cur.fault);
        } else {
          r := Pull(id, Flip(cur.value), bit, busy);
        }
      case Constant(_) =>
        r := Ok(());
      case InView(par, s, w) =>
        if bit >= w || par in busy {
          r := Err(Hardware);
        } else {
          r := Toggle(par, s + bit, busy + {id});
        }
      case OutView(par, s, w, _) =>
        if bit >= w || par in busy {
          r := Err(Hardware);
        } else {
          r := Toggle(par, s + bit, busy + {id});
        }
    }

    /** The first step of `connect(t)` from a bus or an `OutSubBus`: its
      * current value is written into t. */
    method Prime(id: PinId, t: PinId, busy: set<PinId>)
      requires Valid() && id < |pins| && t < |pins| && id !in busy && t != id && t !in busy
      modifies this
      ensures Valid() && pins == SetV(old(pins), t, Value(old(pins), id), busy + {id})
      ensures pins[id] == old(pins)[id]
    {
      var cur := BusVoltage(id);
      SetBusVoltage(t, cur, busy + {id});
    }

    /** `connect(t)` while the pins in busy are borrowed. */
    method Connect(id: PinId, t: PinId, busy: set<PinId>)
      requires Valid() && id < |pins| && t < |pins| && id !in busy
      modifies this
      ensures Valid() && pins == Connected(old(pins), id, t, busy)
      decreases Free(|pins|, busy)
    {
      assert PinOk(pins, pins[id]);
      Borrow(|pins|, busy, id);
      match pins[id]
      case Bus(w, st, cs) =>
        if t != id && t !in busy {
          Prime(id, t, busy);
        }
        ReplaceWF(pins, id, Bus(w, st, cs + [t]));
        pins := pins[id := Bus(w, st, cs + [t])];
      case Constant(_) =>
      case InView(par, s, w) =>
        if par !in busy {
          Connect(par, t, busy + {id});
        }
      case OutView(par, s, w, cs) =>
        if t != id && t != par && t !in busy {
          Prime(id, t, busy);
        }
        assert Same(old(pins)[par], pins[par]);
        ReplaceWF(pins, id, OutView(par, s, w, cs + [t]));
        pins := pins[id := OutView(par, s, w, cs + [t])];
    }
  }
}
