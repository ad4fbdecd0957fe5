// The composite chip: pin tables by name, the builtin parts wired into
// it, and the sub-bus views its connections created. Every pin lives in
// the shared arena; wiring, `eval` and `reset` are proved to change the
// arena as the functions of this module describe.
module Chips {
  import opened Signal
  import opened Errors
  import opened PinRanges
  import opened Wiring
  import opened Memories
  import opened Builtins
  import opened BuiltinChips

  // ---------------------------------------------------------------------
  // Connections and their errors.
  // ---------------------------------------------------------------------

  /** `PinSide`: a pin name and perhaps a bit range of it. */
  datatype PinSide = PinSide(name: string, range: Option<PinRange>)

  /** `Connection`: `from` names a pin of the host chip (or "true" or
    * "false"), `to` a pin of the part. */
  datatype Connection = Connection(from: PinSide, to: PinSide)

  /** `WireError`. `MissingPin` is the source's `PinNotFound`, renamed so
    * as not to clash with the `Fault` of that name. The last two variants
    * exist but are never produced. */
  datatype WireError =
    | MissingPin(pinName: string)
    | WidthMismatch(fromWidth: nat, toWidth: nat)
    | InvalidRange(pinName: string)
    | MultipleAssignment(pinName: string)
    | CircularDependency(cycle: seq<string>)

  datatype WireResult<T> = Wired(value: T) | Refused(error: WireError)

  /** The errors wiring can report. */
  predicate Reported(e: WireError)
  {
    e.MissingPin? || e.WidthMismatch? || e.InvalidRange?
  }

  /** A range has start and end both present or both absent, in order, as
    * `PinRange`'s constructors and `parse_pin_range` make it. */
  predicate SideOk(s: PinSide)
  {
    s.range.Some? ==> s.range.value.Valid()
  }

  predicate RangesOk(conns: seq<Connection>)
  {
    forall j | 0 <= j < |conns| :: SideOk(conns[j].from) && SideOk(conns[j].to)
  }

  /** The width a side stands for: its range's width when it has one,
    * else the width of the pin. */
  function SideWidth(s: PinSide, pinWidth: nat): (w: nat)
    requires SideOk(s)
    ensures s.range.None? ==> w == pinWidth
    ensures s.range.Some? && !s.range.value.IsFullPin() ==>
      w == s.range.value.EndIndex() - s.range.value.StartIndex() + 1
    ensures s.range.Some? && s.range.value.IsFullPin() ==> w == 1
  {
    if s.range.Some? then s.range.value.Width() else pinWidth
  }

  // ---------------------------------------------------------------------
  // Pin tables.
  // ---------------------------------------------------------------------

  /** `insert(name, pin)`: the entry for name replaced, or a new one added
    * at the end. */
  function Insert(t: PinTable, name: string, id: PinId): (r: PinTable)
  {
    if t == [] then [(name, id)]
    else if t[0].0 == name then [(name, id)] + t[1..]
    else [t[0]] + Insert(t[1..], name, id)
  }

  /** After `insert(name, pin)`, name finds pin and every other name
    * finds what it found before. */
  lemma {:induction false} LookupInsert(t: PinTable, name: string, id: PinId, other: string)
    ensures Lookup(Insert(t, name, id), other) == if other == name then Some(id) else Lookup(t, other)
  {
    if t != [] && t[0].0 != name {
      LookupInsert(t[1..], name, id, other);
      assert Insert(t, name, id)[1..] == Insert(t[1..], name, id);
    }
  }

  /** The pins of a table, in entry order. */
  function Ids(t: PinTable): seq<PinId>
  {
    seq(|t|, j requires 0 <= j < |t| => t[j].1)
  }

  /** Every pin of table t is a bus of ps. */
  predicate Holds(ps: seq<Pin>, t: PinTable)
  {
    forall e | e in t :: e.1 < |ps| && ps[e.1].Bus?
  }

  predicate InRange(ps: seq<Pin>, ids: seq<PinId>)
  {
    forall j | 0 <= j < |ids| :: ids[j] < |ps|
  }

  // ---------------------------------------------------------------------
  // How the arena grows while a chip is wired.
  // ---------------------------------------------------------------------

  /** rs extends ps, and every bus of ps is still a bus of the same width. */
  predicate Grows(ps: seq<Pin>, rs: seq<Pin>)
  {
    |ps| <= |rs| && forall i | 0 <= i < |ps| && ps[i].Bus? :: rs[i].Bus? && rs[i].width == ps[i].width
  }

  lemma GrowsTrans(ps: seq<Pin>, qs: seq<Pin>, rs: seq<Pin>)
    requires Grows(ps, qs) && Grows(qs, rs)
    ensures Grows(ps, rs)
  {
  }

  lemma KeptGrows(ps: seq<Pin>, rs: seq<Pin>)
    requires Kept(ps, rs)
    ensures Grows(ps, rs)
  {
    forall i | 0 <= i < |ps| && ps[i].Bus?
      ensures rs[i].Bus? && rs[i].width == ps[i].width
    {
      assert Same(ps[i], rs[i]);
    }
  }

  /** `connect` only records a pin and writes bus states. */
  lemma ConnectedGrows(ps: seq<Pin>, id: PinId, t: PinId, busy: set<PinId>)
    requires WF(ps) && id < |ps| && t < |ps| && id !in busy
    ensures Grows(ps, Connected(ps, id, t, busy))
    decreases Free(|ps|, busy)
  {
    assert PinOk(ps, ps[id]);
    Borrow(|ps|, busy, id);
    match ps[id]
    case Bus(w, st, cs) =>
      if t != id && t !in busy {
        KeptGrows(ps, SetV(ps, t, Pack(st), busy + {id}));
      }
    case Constant(_) =>
    case InView(par, s, w) =>
      if par !in busy {
        ConnectedGrows(ps, par, t, busy + {id});
      }
    case OutView(par, s, w, cs) =>
      if t != id && t !in busy {
        KeptGrows(ps, SetV(ps, t, Value(ps, id), busy + {id}));
      }
  }

  lemma HoldsGrows(ps: seq<Pin>, rs: seq<Pin>, t: PinTable)
    requires Holds(ps, t) && Grows(ps, rs)
    ensures Holds(rs, t)
  {
  }

  lemma FitsGrows(ps: seq<Pin>, rs: seq<Pin>, ids: seq<PinId>, decls: seq<Decl>)
    requires Fits(ps, ids, decls) && Grows(ps, rs)
    ensures Fits(rs, ids, decls)
  {
  }

  lemma PinsFitGrows(c: BuiltinChip, ps: seq<Pin>, rs: seq<Pin>)
    requires c.PinsFit(ps) && Grows(ps, rs)
    ensures c.PinsFit(rs)
  {
    FitsGrows(ps, rs, c.inputs, Inputs(c.kind));
    FitsGrows(ps, rs, c.outputs, Outputs(c.kind));
    FitsGrows(ps, rs, c.internals, Internals(c.kind));
  }

  /** A pin the part's lookup answers is one of its buses. */
  lemma PartPinBus(c: BuiltinChip, ps: seq<Pin>, p: PinId)
    requires c.PinsFit(ps) && (p in c.inputs || p in c.outputs || p in c.internals)
    ensures p < |ps| && ps[p].Bus?
  {
    if p in c.inputs {
      FitsBus(ps, c.inputs, Inputs(c.kind), p);
    } else if p in c.outputs {
      FitsBus(ps, c.outputs, Outputs(c.kind), p);
    } else {
      FitsBus(ps, c.internals, Internals(c.kind), p);
    }
  }

  // ---------------------------------------------------------------------
  // What wiring does to the arena.
  // ---------------------------------------------------------------------

  /** The 1-bit bus `resolve_pin_side` makes for "true" or "false": a new
    * bus, then set to 1 or 0. */
  function ConstBus(ps: seq<Pin>, high: bool): (r: seq<Pin>)
    requires WF(ps)
    ensures WF(r) && |r| == |ps| + 1 && Grows(ps, r) && r[|ps|].Bus? && r[|ps|].width == 1
  {
    var p := Bus(1, [LOW], []);
    GrowWF(ps, p);
    var r := SetV(ps + [p], |ps|, if high then 1 else 0, {});
    KeptGrows(ps + [p], r);
    r
  }

  /** The constant bus holds 1 for "true" and 0 for "false". */
  lemma ConstBusValue(ps: seq<Pin>, high: bool)
    requires WF(ps)
    ensures Value(ConstBus(ps, high), |ps|) == if high then 1 else 0
  {
    var p := Bus(1, [LOW], []);
    GrowWF(ps, p);
    SetBusVoltageRoundTrip(ps + [p], |ps|, if high then 1 else 0, {});
    Pow2Values();
    MaskIsMod(if high then 1 else 0, 1);
  }

  /** `create_output_subbus` (output) or `create_input_subbus` on pin id
    * for the side's range: the pin itself without a range or for a
    * whole-pin range, else a new view over the range, or `InvalidRange`
    * naming the side when the range does not fit. */
  function Narrow(ps: seq<Pin>, id: PinId, side: PinSide, output: bool): (r: WireResult<(seq<Pin>, PinId)>)
    requires WF(ps) && id < |ps| && ps[id].Bus? && SideOk(side)
    ensures r.Wired? ==> WF(r.value.0) && Grows(ps, r.value.0) && r.value.1 < |r.value.0|
    ensures r.Wired? && (side.range.None? || side.range.value.IsFullPin()) ==> r.value == (ps, id)
    ensures r.Refused? <==> (side.range.Some? && !side.range.value.IsFullPin() &&
      side.range.value.StartIndex() + side.range.value.Width() > ps[id].width)
    ensures r.Refused? ==> r.error == InvalidRange(side.name)
  {
    if side.range.None? || side.range.value.IsFullPin() then Wired((ps, id))
    else
      var range := side.range.value;
      if range.StartIndex() + range.Width() > ps[id].width then Refused(InvalidRange(side.name))
      else
        var p := RangeView(id, range, output);
        assert PinOk(ps, p);
        GrowWF(ps, p);
        Wired((ps + [p], |ps|))
  }

  /** The views a connection adds to `subbus_connections`: the effective
    * pin of each side that has a range. */
  function Tracked(vs: seq<PinId>, id: PinId, side: PinSide): seq<PinId>
  {
    if side.range.Some? then vs + [id] else vs
  }

  /** The connections of a Not part whose input and output are named as
    * the host's `in` and `out`. */
  const NotWiring: seq<Connection> := [
    Connection(PinSide("in", None), PinSide("in", None)),
    Connection(PinSide("out", None), PinSide("out", None))]

  /** The arena, the tracked views and the error after making connections. */
  datatype Made = Made(pins: seq<Pin>, views: seq<PinId>, error: Option<WireError>)

  /** The last steps of `make_input_connection` and
    * `make_output_connection`: the driving pin f narrowed to an
    * `OutSubBus`, then joined to the driven pin t. */
  function Joined(ps: seq<Pin>, vs: seq<PinId>, f: PinId, fside: PinSide, t: PinId, tside: PinSide): (r: Made)
    requires WF(ps) && f < |ps| && ps[f].Bus? && t < |ps| && ps[t].Bus? && InRange(ps, vs)
    requires SideOk(fside) && SideOk(tside)
    ensures WF(r.pins) && Grows(ps, r.pins) && InRange(r.pins, r.views)
    ensures r.error.Some? ==> r.error.value.InvalidRange?
  {
    match Narrow(ps, f, fside, true)
    case Refused(e) => Made(ps, vs, Some(e))
    case Wired((ps2, f2)) =>
      var r := JoinedTo(ps2, Tracked(vs, f2, fside), f2, t, tside);
      GrowsTrans(ps, ps2, r.pins);
      r
  }

  /** The driven pin t narrowed to an `InSubBus`, then the driving pin f
    * connected to it. */
  function JoinedTo(ps: seq<Pin>, vs: seq<PinId>, f: PinId, t: PinId, tside: PinSide): (r: Made)
    requires WF(ps) && f < |ps| && t < |ps| && ps[t].Bus? && InRange(ps, vs) && SideOk(tside)
    ensures WF(r.pins) && Grows(ps, r.pins) && InRange(r.pins, r.views)
    ensures r.error.Some? ==> r.error.value.InvalidRange?
  {
    match Narrow(ps, t, tside, false)
    case Refused(e) => Made(ps, vs, Some(e))
    case Wired((ps3, t2)) =>
      ConnectedGrows(ps3, f, t2, {});
      GrowsTrans(ps, ps3, Connected(ps3, f, t2, {}));
      Made(Connected(ps3, f, t2, {}), Tracked(vs, t2, tside), None)
  }

  // ---------------------------------------------------------------------
  // Sub-chips as values: `eval` and `reset` of the whole list.
  // ---------------------------------------------------------------------

  predicate AllFit(ps: seq<Pin>, ss: seq<PartState>)
  {
    forall j | 0 <= j < |ss| :: StateFits(ps, ss[j])
  }

  lemma AllFitKept(ps: seq<Pin>, rs: seq<Pin>, ss: seq<PartState>)
    requires AllFit(ps, ss) && Kept(ps, rs)
    ensures AllFit(rs, ss)
  {
    forall j | 0 <= j < |ss|
      ensures StateFits(rs, ss[j])
    {
      StateFitsKept(ps, rs, ss[j]);
    }
  }

  /** `eval` of every sub-chip, in wiring order: the arena after them all
    * and the memory each one ends with. */
  function EvalAll(ps: seq<Pin>, ss: seq<PartState>): (r: (seq<Pin>, seq<seq<Word>>))
    requires WF(ps) && AllFit(ps, ss)
    ensures Kept(ps, r.0) && WF(r.0) && |r.1| == |ss|
    decreases |ss|
  {
    if ss == [] then (ps, [])
    else
      var e := EvalPart(ps, ss[0]);
      AllFitKept(ps, e.0, ss[1..]);
      var rest := EvalAll(e.0, ss[1..]);
      KeptTrans(ps, e.0, rest.0);
      (rest.0, [e.1] + rest.1)
  }

  /** The first sub-chip of a list evaluates, then the rest. */
  lemma EvalAllStep(ps: seq<Pin>, ss: seq<PartState>)
    requires WF(ps) && AllFit(ps, ss) && ss != []
    ensures StateFits(ps, ss[0]) && AllFit(EvalPart(ps, ss[0]).0, ss[1..])
    ensures var e := EvalPart(ps, ss[0]);
      EvalAll(ps, ss) == (EvalAll(e.0, ss[1..]).0, [e.1] + EvalAll(e.0, ss[1..]).1)
  {
    AllFitKept(ps, EvalPart(ps, ss[0]).0, ss[1..]);
  }

  /** The loop of `eval` after k sub-chips, with fin the outcome of them
    * all: the k-th evaluates, and the rest still lead to fin. */
  lemma EvalNext(ps: seq<Pin>, ss: seq<PartState>, k: nat, fin: (seq<Pin>, seq<seq<Word>>))
    requires WF(ps) && k < |ss| == |fin.1| && AllFit(ps, ss[k..]) && EvalAll(ps, ss[k..]) == (fin.0, fin.1[k..])
    ensures StateFits(ps, ss[k])
    ensures var e := EvalPart(ps, ss[k]);
      AllFit(e.0, ss[k + 1..]) && EvalAll(e.0, ss[k + 1..]) == (fin.0, fin.1[k + 1..]) && e.1 == fin.1[k]
  {
    EvalAllStep(ps, ss[k..]);
    assert ss[k..][0] == ss[k] && ss[k..][1..] == ss[k + 1..];
    assert fin.1[k..][0] == fin.1[k] && fin.1[k..][1..] == fin.1[k + 1..];
  }

  /** `reset` of every sub-chip, in wiring order: the arena after them all
    * and each sub-chip's new state. */
  function ResetAll(ps: seq<Pin>, ss: seq<PartState>): (r: (seq<Pin>, seq<PartState>))
    requires WF(ps) && AllFit(ps, ss)
    ensures Kept(ps, r.0) && WF(r.0) && |r.1| == |ss|
    decreases |ss|
  {
    if ss == [] then (ps, [])
    else
      var e := ResetPart(ps, ss[0]);
      AllFitKept(ps, e.0, ss[1..]);
      var rest := ResetAll(e.0, ss[1..]);
      KeptTrans(ps, e.0, rest.0);
      StateFitsKept(e.0, rest.0, e.1);
      (rest.0, [e.1] + rest.1)
  }

  /** The first sub-chip of a list resets, then the rest. */
  lemma ResetAllStep(ps: seq<Pin>, ss: seq<PartState>)
    requires WF(ps) && AllFit(ps, ss) && ss != []
    ensures StateFits(ps, ss[0]) && AllFit(ResetPart(ps, ss[0]).0, ss[1..])
    ensures var e := ResetPart(ps, ss[0]);
      ResetAll(ps, ss) == (ResetAll(e.0, ss[1..]).0, [e.1] + ResetAll(e.0, ss[1..]).1)
  {
    AllFitKept(ps, ResetPart(ps, ss[0]).0, ss[1..]);
  }

  /** The loop of `reset` after k sub-chips, with fin the outcome of them
    * all: the k-th resets, and the rest still lead to fin. */
  lemma ResetNext(ps: seq<Pin>, ss: seq<PartState>, k: nat, fin: (seq<Pin>, seq<PartState>))
    requires WF(ps) && k < |ss| == |fin.1| && AllFit(ps, ss[k..]) && ResetAll(ps, ss[k..]) == (fin.0, fin.1[k..])
    ensures StateFits(ps, ss[k])
    ensures var e := ResetPart(ps, ss[k]);
      AllFit(e.0, ss[k + 1..]) && ResetAll(e.0, ss[k + 1..]) == (fin.0, fin.1[k + 1..]) && e.1 == fin.1[k]
  {
    ResetAllStep(ps, ss[k..]);
    assert ss[k..][0] == ss[k] && ss[k..][1..] == ss[k + 1..];
    assert fin.1[k..][0] == fin.1[k] && fin.1[k..][1..] == fin.1[k + 1..];
  }

  /** `propagate_subbus_signals`: each tracked view in turn is written its
    * own current value, which pushes it on to the pins it drives. */
  function Refresh(ps: seq<Pin>, vs: seq<PinId>): (r: seq<Pin>)
    requires WF(ps) && InRange(ps, vs)
    ensures Kept(ps, r) && WF(r)
    decreases |vs|
  {
    if vs == [] then ps
    else
      var ps1 := SetV(ps, vs[0], Value(ps, vs[0]), {});
      var r := Refresh(ps1, vs[1..]);
      KeptTrans(ps, ps1, r);
      r
  }

  /** The first view still to refresh writes itself its own value, then
    * the rest refresh. */
  lemma RefreshStep(ps: seq<Pin>, vs: seq<PinId>, k: nat)
    requires WF(ps) && InRange(ps, vs) && k < |vs|
    ensures var ps1 := SetV(ps, vs[k], Value(ps, vs[k]), {});
      InRange(ps1, vs) && Grows(ps, ps1) && Refresh(ps, vs[k..]) == Refresh(ps1, vs[k + 1..])
  {
    assert vs[k..][0] == vs[k] && vs[k..][1..] == vs[k + 1..];
    KeptGrows(ps, SetV(ps, vs[k], Value(ps, vs[k]), {}));
  }

  /** Refreshing an `OutSubBus` pushes its current field to every pin it
    * drives and writes nothing into its parent. */
  lemma RefreshOut(ps: seq<Pin>, v: PinId)
    requires WF(ps) && v < |ps| && ps[v].OutView?
    ensures SetV(ps, v, Value(ps, v), {}) == Push(ps, ps[v].conns, 0, Value(ps, v), {v})
  {
    assert PinOk(ps, ps[v]);
    assert {} + {v} == {v};
  }

  /** Refreshing an `InSubBus` writes its parent the parent's own value:
    * the field read is spliced back unchanged. */
  lemma RefreshIn(ps: seq<Pin>, v: PinId)
    requires WF(ps) && v < |ps| && ps[v].InView?
    ensures ps[v].parent < |ps| && ps[v].parent != v
    ensures SetV(ps, v, Value(ps, v), {}) == SetV(ps, ps[v].parent, Value(ps, ps[v].parent), {v})
  {
    assert PinOk(ps, ps[v]);
    var InView(par, st, w) := ps[v];
    SpliceSlice(Pack(ps[par].state), st, w);
    assert {} + {v} == {v};
  }

  /** A Not part evaluates by pulling its output to the inverse of the
    * voltage on its input. */
  lemma NotWrites(ps: seq<Pin>, s: PartState)
    requires WF(ps) && s.kind == NotChip && StateFits(ps, s)
    ensures s.inputs[0] < |ps| && ps[s.inputs[0]].Bus? && |ps[s.inputs[0]].state| == 1 && s.outputs[0] < |ps|
    ensures EvalPart(ps, s).0 == Pulled(ps, s.outputs[0], if ps[s.inputs[0]].state[0] == HIGH then LOW else HIGH, 0, {})
    ensures AllFit(ps, [s]) && EvalAll(ps, [s]).0 == EvalPart(ps, s).0
  {
    EvalAllStep(ps, [s]);
    var pIn := s.inputs[0];
    assert PinOk(ps, ps[pIn]);
    var x := ps[pIn].state[0];
    var ins := Samples(ps, s.inputs, Inputs(NotChip));
    assert ins == [x];
    var ws := EvalWrites(NotChip, ins, s.outputs, s.regs, EvalMemory(NotChip, ins, s.mem));
    assert ws == [PullTo(s.outputs[0], if x == HIGH then LOW else HIGH)];
    assert Apply(ps, ws) == Apply(Step(ps, ws[0]), []) by {
      assert ws[1..] == [];
    }
  }

  /** Pulling bus hIn, which drives only the bus p, to x puts x on p and
    * leaves every pin but those two as it was. */
  lemma PullInto(ps: seq<Pin>, hIn: PinId, p: PinId, x: Voltage)
    requires WF(ps) && hIn < |ps| && ps[hIn].Bus? && ps[hIn].conns == [p] && Leaf(ps, p) && p != hIn
    ensures var r := Pulled(ps, hIn, x, 0, {});
      Kept(ps, r) && r[p].Bus? && |r[p].state| >= 1 && r[p].state[0] == x && forall i | 0 <= i < |ps| && i != hIn && i != p :: r[i] == ps[i]
  {
    assert PinOk(ps, ps[hIn]);
    assert PinOk(ps, ps[p]);
    PullDrives(ps, hIn, x, 0);
  }

  /** A Not part whose input is driven by bus hIn and whose output drives
    * bus hOut: pulling hIn to x and evaluating the part leaves hOut
    * holding the inverse of x. */
  lemma NotEvaluates(ps: seq<Pin>, s: PartState, hIn: PinId, hOut: PinId, x: Voltage)
    requires WF(ps) && s.kind == NotChip && StateFits(ps, s)
    requires hIn < |ps| && ps[hIn].Bus? && ps[hIn].conns == [s.inputs[0]] && Leaf(ps, s.inputs[0])
    requires ps[s.outputs[0]].conns == [hOut] && Leaf(ps, hOut)
    requires Unique([hIn, hOut, s.inputs[0], s.outputs[0]])
    ensures AllFit(Pulled(ps, hIn, x, 0, {}), [s])
    ensures var r := EvalAll(Pulled(ps, hIn, x, 0, {}), [s]).0;
      hOut < |r| && r[hOut].Bus? && |r[hOut].state| >= 1 && r[hOut].state[0] == (if x == HIGH then LOW else HIGH)
  {
    var pIn, pOut := s.inputs[0], s.outputs[0];
    var ids := [hIn, hOut, pIn, pOut];
    assert ids[0] != ids[1] && ids[0] != ids[2] && ids[0] != ids[3];
    assert ids[1] != ids[2] && ids[1] != ids[3] && ids[2] != ids[3];
    PullInto(ps, hIn, pIn, x);
    var ps1 := Pulled(ps, hIn, x, 0, {});
    StateFitsKept(ps, ps1, s);
    NotWrites(ps1, s);
    PullInto(ps1, pOut, hOut, if x == HIGH then LOW else HIGH);
  }

  /** The pins the `OutSubBus` views among vs drive, view by view. */
  function DrivenBy(ps: seq<Pin>, vs: seq<PinId>): (r: seq<PinId>)
    requires InRange(ps, vs)
    ensures vs != [] && ps[vs[0]].OutView? ==> r == ps[vs[0]].conns + DrivenBy(ps, vs[1..])
    decreases |vs|
  {
    if vs == [] then []
    else (if ps[vs[0]].OutView? then ps[vs[0]].conns else []) + DrivenBy(ps, vs[1..])
  }

  /** Every pin of cs is a bus that drives nothing. */
  predicate Leaves(ps: seq<Pin>, cs: seq<PinId>)
  {
    forall k | 0 <= k < |cs| :: Leaf(ps, cs[k])
  }

  /** Tracked views whose refreshes do not interfere: each is an
    * `OutSubBus` driving buses that drive nothing, no view's parent is
    * driven by a view, and no pin is driven twice. */
  predicate Fanned(ps: seq<Pin>, vs: seq<PinId>)
  {
    InRange(ps, vs) &&
    (forall j | 0 <= j < |vs| ::
      ps[vs[j]].OutView? && Leaves(ps, ps[vs[j]].conns) && ps[vs[j]].parent !in DrivenBy(ps, vs)) &&
    Unique(DrivenBy(ps, vs))
  }

  /** The driven pins are read off the views alone. */
  lemma {:induction false} DrivenBySame(ps: seq<Pin>, rs: seq<Pin>, vs: seq<PinId>)
    requires InRange(ps, vs) && |rs| == |ps| && forall j | 0 <= j < |vs| :: rs[vs[j]] == ps[vs[j]]
    ensures InRange(rs, vs) && DrivenBy(rs, vs) == DrivenBy(ps, vs)
    decreases |vs|
  {
    if vs != [] {
      DrivenBySame(ps, rs, vs[1..]);
    }
  }

  /** Of two sequences without repeats side by side, each is without
    * repeats and they share nothing. */
  lemma UniqueSplit(a: seq<PinId>, b: seq<PinId>)
    requires Unique(a + b)
    ensures Unique(a) && Unique(b) && forall x | x in a :: x !in b
  {
    assert forall i | 0 <= i < |a| :: (a + b)[i] == a[i];
    assert forall i | 0 <= i < |b| :: (a + b)[|a| + i] == b[i];
    forall i, k | 0 <= i < |a| && 0 <= k < |b|
      ensures a[i] != b[k]
    {
      assert (a + b)[i] == a[i] && (a + b)[|a| + k] == b[k];
    }
  }

  /** An arena that differs from ps only on the buses the first view
    * drives leaves the other views non-interfering, driving the same pins. */
  lemma FannedKeep(ps: seq<Pin>, rs: seq<Pin>, vs: seq<PinId>)
    requires Fanned(ps, vs) && vs != [] && |rs| == |ps|
    requires forall j | 0 <= j < |vs| :: rs[vs[j]] == ps[vs[j]]
    requires forall i | 0 <= i < |ps| && i !in ps[vs[0]].conns :: rs[i] == ps[i]
    ensures Fanned(rs, vs[1..]) && DrivenBy(rs, vs[1..]) == DrivenBy(ps, vs[1..])
  {
    var cs := ps[vs[0]].conns;
    var rest := vs[1..];
    UniqueSplit(cs, DrivenBy(ps, rest));
    DrivenBySame(ps, rs, rest);
    forall j | 0 <= j < |rest|
      ensures rs[rest[j]].OutView? && Leaves(rs, rs[rest[j]].conns) && rs[rest[j]].parent !in DrivenBy(rs, rest)
    {
      assert rest[j] == vs[j + 1];
      var ds := ps[rest[j]].conns;
      forall k | 0 <= k < |ds|
        ensures Leaf(rs, ds[k])
      {
        DrivenByHas(ps, rest, j, k);
        assert ds[k] !in cs;
      }
    }
  }

  /** The first refresh of non-interfering views: the first view's driven
    * buses take its value, nothing else changes, and the other views are
    * still non-interfering with the same driven pins. */
  lemma FannedStep(ps: seq<Pin>, vs: seq<PinId>)
    requires WF(ps) && Fanned(ps, vs) && vs != []
    ensures var ps1 := SetV(ps, vs[0], Value(ps, vs[0]), {});
      && (forall j | 0 <= j < |vs| :: ps1[vs[j]] == ps[vs[j]])
      && Fanned(ps1, vs[1..]) && DrivenBy(ps1, vs[1..]) == DrivenBy(ps, vs[1..])
      && (forall c | c in ps[vs[0]].conns :: c < |ps| && ps[c].Bus? &&
            ps1[c] == ps[c].(state := Unpack(Value(ps, vs[0]), ps[c].width)))
      && (forall i | 0 <= i < |ps| && i !in ps[vs[0]].conns :: ps1[i] == ps[i])
  {
    var v := vs[0];
    var cs := ps[v].conns;
    var cur := Value(ps, v);
    var rest := vs[1..];
    assert PinOk(ps, ps[v]);
    var ps1 := SetV(ps, v, cur, {});
    RefreshOut(ps, v);
    PushLeaves(ps, cs, 0, cur, {v});
    assert cs[0..] == cs;
    UniqueSplit(cs, DrivenBy(ps, rest));
    forall j | 0 <= j < |vs|
      ensures ps1[vs[j]] == ps[vs[j]]
    {
      assert vs[j] !in cs;
    }
    FannedKeep(ps, ps1, vs);
    forall c | c in cs
      ensures c < |ps| && ps[c].Bus? && ps1[c] == ps[c].(state := Unpack(cur, ps[c].width))
    {
      var k :| 0 <= k < |cs| && cs[k] == c;
    }
  }

  /** `propagate_subbus_signals` over non-interfering `OutSubBus` views:
    * every bus a view drives ends up holding the view's value at the bus's
    * own width, and no other pin changes. */
  lemma {:induction false} RefreshFanned(ps: seq<Pin>, vs: seq<PinId>)
    requires WF(ps) && Fanned(ps, vs)
    ensures forall j, k | 0 <= j < |vs| && 0 <= k < |ps[vs[j]].conns| ::
      ps[vs[j]].conns[k] < |ps| && ps[ps[vs[j]].conns[k]].Bus? &&
      Value(Refresh(ps, vs), ps[vs[j]].conns[k]) == And(Value(ps, vs[j]), Mask(ps[ps[vs[j]].conns[k]].width))
    ensures forall i | 0 <= i < |ps| && i !in DrivenBy(ps, vs) :: Refresh(ps, vs)[i] == ps[i]
    decreases |vs|
  {
    if vs != [] {
      var v := vs[0];
      var cs := ps[v].conns;
      var cur := Value(ps, v);
      var rest := vs[1..];
      var ps1 := SetV(ps, v, cur, {});
      FannedStep(ps, vs);
      UniqueSplit(cs, DrivenBy(ps, rest));
      var r := Refresh(ps1, rest);
      RefreshFanned(ps1, rest);
      assert Refresh(ps, vs) == r;
      forall j, k | 0 <= j < |vs| && 0 <= k < |ps[vs[j]].conns|
        ensures ps[vs[j]].conns[k] < |ps| && ps[ps[vs[j]].conns[k]].Bus? &&
          Value(r, ps[vs[j]].conns[k]) == And(Value(ps, vs[j]), Mask(ps[ps[vs[j]].conns[k]].width))
      {
        var c := ps[vs[j]].conns[k];
        DrivenByHas(ps, vs, j, k);
        assert Leaf(ps, c);
        if j == 0 {
          assert r[c] == ps1[c];
          PackUnpack(cur, ps[c].width);
        } else {
          assert vs[j] == rest[j - 1];
          var par := ps[vs[j]].parent;
          assert ps1[par] == ps[par];
          assert Value(ps1, vs[j]) == Value(ps, vs[j]);
        }
      }
    }
  }

  /** A pin a view of vs drives is among the driven pins. */
  lemma {:induction false} DrivenByHas(ps: seq<Pin>, vs: seq<PinId>, j: nat, k: nat)
    requires InRange(ps, vs) && j < |vs| && ps[vs[j]].OutView? && k < |ps[vs[j]].conns|
    ensures ps[vs[j]].conns[k] in DrivenBy(ps, vs)
    decreases |vs|
  {
    if j > 0 {
      assert vs[1..][j - 1] == vs[j];
      DrivenByHas(ps, vs[1..], j - 1, k);
    }
  }

  /** A bus whose state was written 0 reads 0. */
  lemma ZeroRead(ps: seq<Pin>, rs: seq<Pin>, id: PinId)
    requires WF(ps) && WF(rs) && id < |ps| == |rs| && ps[id].Bus?
    requires rs[id] == Stored(ps[id], SetTo(id, 0))
    ensures Value(rs, id) == 0
  {
    assert PinOk(ps, ps[id]);
    PackUnpack(0, ps[id].width);
    MaskIsMod(0, ps[id].width);
  }

  /** Zero writes to distinct leaf pins land on distinct leaves. */
  lemma ZeroedWrites(ps: seq<Pin>, ids: seq<PinId>)
    requires forall j | 0 <= j < |ids| :: Leaf(ps, ids[j])
    requires forall i, j | 0 <= i < j < |ids| :: ids[i] != ids[j]
    ensures InArena(ps, Zeroed(ids)) && Distinct(Zeroed(ids)) && OnLeaves(ps, Zeroed(ids))
  {
  }

  /** A pin outside ids is not hit by their zero writes. */
  lemma ZeroedMisses(ids: seq<PinId>, i: PinId)
    requires i !in ids
    ensures !Hits(Zeroed(ids), i)
  {
  }

  /** The final loops of `reset`: the pins set to 0 that drive nothing,
    * each listed once, read 0 afterwards, and no other pin changes. */
  lemma ZeroedLeaves(ps: seq<Pin>, ids: seq<PinId>)
    requires WF(ps) && (forall j | 0 <= j < |ids| :: Leaf(ps, ids[j]))
    requires forall i, j | 0 <= i < j < |ids| :: ids[i] != ids[j]
    ensures InArena(ps, Zeroed(ids))
    ensures forall j | 0 <= j < |ids| :: Value(Apply(ps, Zeroed(ids)), ids[j]) == 0
    ensures forall i | 0 <= i < |ps| && i !in ids :: Apply(ps, Zeroed(ids))[i] == ps[i]
  {
    ZeroedWrites(ps, ids);
    var ws := Zeroed(ids);
    ApplyLeaves(ps, ws);
    var rs := Apply(ps, ws);
    forall j | 0 <= j < |ids|
      ensures Value(rs, ids[j]) == 0
    {
      assert ws[j].pin == ids[j];
      ZeroRead(ps, rs, ids[j]);
    }
    forall i | 0 <= i < |ps| && i !in ids
      ensures rs[i] == ps[i]
    {
      ZeroedMisses(ids, i);
    }
  }

  // ---------------------------------------------------------------------
  // The composite chip.
  // ---------------------------------------------------------------------

  /** The sub-chips as values. */
  function StatesOf(cs: seq<BuiltinChip>): (r: seq<PartState>)
    reads set j | 0 <= j < |cs| :: cs[j], set j | 0 <= j < |cs| :: cs[j].memory
    ensures |r| == |cs| && forall j | 0 <= j < |cs| :: r[j] == cs[j].State()
  {
    if cs == [] then [] else [cs[0].State()] + StatesOf(cs[1..])
  }

  /** No two sub-chips are the same object or share a memory. */
  predicate Separate(cs: seq<BuiltinChip>)
  {
    forall i, j | 0 <= i < j < |cs| :: cs[i] != cs[j] && cs[i].memory != cs[j].memory
  }

  lemma SeparateAt(cs: seq<BuiltinChip>, i: nat, j: nat)
    requires Separate(cs) && i < |cs| && j < |cs| && i != j
    ensures cs[i] != cs[j] && cs[i].memory != cs[j].memory
  {
    if j < i {
      assert cs[j] != cs[i] && cs[j].memory != cs[i].memory;
    }
  }

  class Chip {
    const name: string
    /** The arena every pin of the simulation lives in. */
    const arena: Arena
    var inputPins: PinTable
    var outputPins: PinTable
    var internalPins: PinTable
    /** `sub_chips`, in wiring order. */
    var parts: seq<BuiltinChip>
    /** `subbus_connections`: the views (or pins) made for ranged sides. */
    var views: seq<PinId>
    /** The sub-chips and their memories: what this chip reaches besides
      * the arena. */
    ghost var Repr: set<object>

    /** The sub-chips' memories. */
    function Memories(): set<Memory>
      reads this`parts
    {
      set j | 0 <= j < |parts| :: parts[j].memory
    }

    /** The sub-chips themselves. */
    function Parts(): set<BuiltinChip>
      reads this`parts
    {
      set j | 0 <= j < |parts| :: parts[j]
    }

    /** Every table pin is a bus of ps. */
    predicate TablesHeld(ps: seq<Pin>)
      reads this`inputPins, this`outputPins, this`internalPins
    {
      Holds(ps, inputPins) && Holds(ps, outputPins) && Holds(ps, internalPins)
    }

    /** Every sub-chip's pins are buses of the declared widths in ps. */
    predicate PartsFit(ps: seq<Pin>)
      reads this`parts
    {
      forall j | 0 <= j < |parts| :: parts[j].PinsFit(ps)
    }

    /** The sub-chips share this chip's arena, own their name maps, have
      * memories of their kind's size, and are distinct objects with
      * distinct memories: facts about constant fields only. */
    predicate PartsSound()
      reads this`parts
    {
      (forall j | 0 <= j < |parts| ::
        parts[j].arena == arena && parts[j].Owned() && Unique(parts[j].inputs + parts[j].outputs + parts[j].internals) &&
        parts[j].memory.size == MemorySize(parts[j].kind)) &&
      Separate(parts)
    }

    /** Every sub-chip and its memory are in Repr, the arena is not, and
      * every memory holds as many words as it should. */
    ghost predicate MemoriesValid()
      reads this`parts, this`Repr, Repr
    {
      arena !in Repr &&
      forall j | 0 <= j < |parts| :: parts[j] in Repr && parts[j].memory in Repr && parts[j].memory.Valid()
    }

    ghost predicate Valid()
      reads this, arena, Repr
    {
      arena.Valid() && TablesHeld(arena.pins) && InRange(arena.pins, views) &&
      PartsFit(arena.pins) && PartsSound() && MemoriesValid()
    }

    lemma PartValid(j: nat)
      requires Valid() && j < |parts|
      ensures parts[j].Valid()
    {
    }

    /** A part that can join the sub-chips. */
    predicate Joinable(part: BuiltinChip)
      reads this, part, arena, part.memory
    {
      part.arena == arena && part.Valid() && part !in parts &&
      forall j | 0 <= j < |parts| :: parts[j].memory != part.memory
    }

    /** After the arena grew from ps, the tables still hold buses and
      * every sub-chip still fits. */
    lemma Regrown(ps: seq<Pin>)
      requires TablesHeld(ps) && InRange(ps, views) && PartsFit(ps) && Grows(ps, arena.pins)
      ensures TablesHeld(arena.pins) && InRange(arena.pins, views) && PartsFit(arena.pins)
    {
      forall j | 0 <= j < |parts|
        ensures parts[j].PinsFit(arena.pins)
      {
        PinsFitGrows(parts[j], ps, arena.pins);
      }
    }

    /** `Chip::new(name)`: no pins, no sub-chips. */
    constructor(name: string, arena: Arena)
      requires arena.Valid()
      ensures Valid() && this.name == name && this.arena == arena
      ensures inputPins == [] && outputPins == [] && internalPins == [] && parts == [] && views == []
    {
      this.name := name;
      this.arena := arena;
      inputPins := [];
      outputPins := [];
      internalPins := [];
      parts := [];
      views := [];
      Repr := {};
    }

    /** `add_input_pin`, `add_output_pin`, `add_internal_pin`: insert into
      * the table, replacing an entry of the same name. */
    method AddInputPin(name: string, id: PinId)
      requires Valid() && id < |arena.pins| && arena.pins[id].Bus?
      modifies this`inputPins
      ensures Valid() && inputPins == Insert(old(inputPins), name, id)
    {
      InsertHolds(arena.pins, inputPins, name, id);
      inputPins := Insert(inputPins, name, id);
    }

    method AddOutputPin(name: string, id: PinId)
      requires Valid() && id < |arena.pins| && arena.pins[id].Bus?
      modifies this`outputPins
      ensures Valid() && outputPins == Insert(old(outputPins), name, id)
    {
      InsertHolds(arena.pins, outputPins, name, id);
      outputPins := Insert(outputPins, name, id);
    }

    method AddInternalPin(name: string, id: PinId)
      requires Valid() && id < |arena.pins| && arena.pins[id].Bus?
      modifies this`internalPins
      ensures Valid() && internalPins == Insert(old(internalPins), name, id)
    {
      InsertHolds(arena.pins, internalPins, name, id);
      internalPins := Insert(internalPins, name, id);
    }

    /** `add_sub_chip`: the part joins the end of the list. */
    method AddSubChip(part: BuiltinChip)
      requires Valid() && part.arena == arena && part.Owned() && part.PinsFit(arena.pins)
      requires Unique(part.inputs + part.outputs + part.internals) && part.memory.Valid()
      requires part.memory.size == MemorySize(part.kind)
      requires part !in parts && forall j | 0 <= j < |parts| :: parts[j].memory != part.memory
      modifies this`parts, this`Repr
      ensures Valid() && parts == old(parts) + [part]
    {
      parts := parts + [part];
      Repr := Repr + {part, part.memory};
    }

    /** `get_pin(name)`: the input pins first, then the output pins, then
      * the internal pins; a name in none of them is a hardware error. */
    function GetPin(name: string): (r: Result<PinId>)
      reads this`inputPins, this`outputPins, this`internalPins
      ensures r.Ok? <==> HasName(inputPins, name) || HasName(outputPins, name) || HasName(internalPins, name)
      ensures HasName(inputPins, name) ==> (name, r.value) in inputPins
      ensures !HasName(inputPins, name) && HasName(outputPins, name) ==> (name, r.value) in outputPins
      ensures !HasName(inputPins, name) && !HasName(outputPins, name) && r.Ok? ==> (name, r.value) in internalPins
      ensures r.Err? ==> r.fault == Hardware
    {
      match Lookup(inputPins, name)
      case Some(id) => Ok(id)
      case None =>
        match Lookup(outputPins, name)
        case Some(id) => Ok(id)
        case None =>
          match Lookup(internalPins, name)
          case Some(id) => Ok(id)
          case None => Err(Hardware)
    }

    /** `is_input_pin` and `is_output_pin`. */
    predicate IsInputPin(name: string)
      reads this`inputPins
    {
      HasName(inputPins, name)
    }

    predicate IsOutputPin(name: string)
      reads this`outputPins
    {
      HasName(outputPins, name)
    }

    /** A pin `get_pin` finds is a bus of ps. */
    lemma GetPinBus(ps: seq<Pin>, name: string)
      requires TablesHeld(ps) && GetPin(name).Ok?
      ensures GetPin(name).value < |ps| && ps[GetPin(name).value].Bus?
    {
    }

    /** `connect_pins(from, to)`: both names looked up, then `connect`. */
    method ConnectPins(from: string, to: string) returns (r: Result<()>)
      requires Valid()
      modifies arena
      ensures Valid()
      ensures r.Ok? <==> GetPin(from).Ok? && GetPin(to).Ok?
      ensures r.Err? ==> r.fault == Hardware && arena.pins == old(arena.pins)
      ensures r.Ok? ==> arena.pins == Connected(old(arena.pins), GetPin(from).value, GetPin(to).value, {})
    {
      var f := GetPin(from);
      if f.Err? {
        return Err(f.fault);
      }
      var t := GetPin(to);
      if t.Err? {
        return Err(t.fault);
      }
      GetPinBus(arena.pins, from);
      GetPinBus(arena.pins, to);
      ConnectFound(f.value, t.value);
      r := Ok(());
    }

    /** `connect` between two pins of the arena, keeping the chip valid. */
    method ConnectFound(f: PinId, t: PinId)
      requires Valid() && f < |arena.pins| && t < |arena.pins|
      modifies arena
      ensures Valid() && arena.pins == Connected(old(arena.pins), f, t, {})
    {
      ghost var before := arena.pins;
      arena.Connect(f, t, {});
      ConnectedGrows(before, f, t, {});
      Regrown(before);
    }

    // -------------------------------------------------------------------
    // Validation.
    // -------------------------------------------------------------------

    /** The width of the host side during validation: a "true" or "false"
      * pin is 1 bit wide; any other name is looked up. */
    function HostWidth(ps: seq<Pin>, name: string): (r: WireResult<nat>)
      reads this`inputPins, this`outputPins, this`internalPins
      requires TablesHeld(ps)
      ensures r.Refused? <==> name != "true" && name != "false" && GetPin(name).Err?
      ensures r.Refused? ==> r.error == MissingPin(name)
      ensures r.Wired? && (name == "true" || name == "false") ==> r.value == 1
      ensures r.Wired? && name != "true" && name != "false" ==> r.value == ps[GetPin(name).value].width
    {
      if name == "true" || name == "false" then Wired(1)
      else
        match GetPin(name)
        case Ok(id) => Wired(WidthOf(ps[id]))
        case Err(_) => Refused(MissingPin(name))
    }

    /** `validate_connection`: the part must have the named pin as an
      * input or an output; both sides must resolve; and the widths, taken
      * from the ranges where given, must agree. */
    function Validate(ps: seq<Pin>, part: BuiltinChip, c: Connection): (r: Option<WireError>)
      reads this`inputPins, this`outputPins, this`internalPins
      requires TablesHeld(ps) && part.Owned() && part.PinsFit(ps) && SideOk(c.from) && SideOk(c.to)
      ensures r.Some? ==> r.value.MissingPin? || r.value.WidthMismatch?
      ensures r.Some? && r.value.WidthMismatch? ==> r.value.fromWidth != r.value.toWidth
    {
      var isIn := part.IsInputPin(c.to.name);
      if !isIn && !part.IsOutputPin(c.to.name) then Some(MissingPin(c.to.name))
      else if isIn then
        match HostWidth(ps, c.from.name)
        case Refused(e) => Some(e)
        case Wired(hw) =>
          match part.GetPin(c.to.name)
          case Err(_) => Some(MissingPin(c.to.name))
          case Ok(t) =>
            PartPinBus(part, ps, t);
            var fw := SideWidth(c.from, hw);
            var tw := SideWidth(c.to, ps[t].width);
            if fw != tw then Some(WidthMismatch(fw, tw)) else None
      else
        match part.GetPin(c.to.name)
        case Err(_) => Some(MissingPin(c.to.name))
        case Ok(f) =>
          match HostWidth(ps, c.from.name)
          case Refused(e) => Some(e)
          case Wired(hw) =>
            PartPinBus(part, ps, f);
            var fw := SideWidth(c.to, ps[f].width);
            var tw := SideWidth(c.from, hw);
            if fw != tw then Some(WidthMismatch(fw, tw)) else None
    }

    /** The first connection that fails validation, in order. */
    function ValidateAll(ps: seq<Pin>, part: BuiltinChip, conns: seq<Connection>): Option<WireError>
      reads this`inputPins, this`outputPins, this`internalPins
      requires TablesHeld(ps) && part.Owned() && part.PinsFit(ps) && RangesOk(conns)
      decreases |conns|
    {
      if conns == [] then None
      else
        var e := Validate(ps, part, conns[0]);
        if e.Some? then e else ValidateAll(ps, part, conns[1..])
    }

    /** Validation passes exactly when every connection passes. */
    lemma {:induction false} ValidateAllPasses(ps: seq<Pin>, part: BuiltinChip, conns: seq<Connection>)
      requires TablesHeld(ps) && part.Owned() && part.PinsFit(ps) && RangesOk(conns)
      ensures ValidateAll(ps, part, conns).None? <==> forall j | 0 <= j < |conns| :: Validate(ps, part, conns[j]).None?
      decreases |conns|
    {
      if conns != [] && Validate(ps, part, conns[0]).None? {
        var rest := conns[1..];
        assert RangesOk(rest);
        ValidateAllPasses(ps, part, rest);
        assert forall j | 1 <= j < |conns| :: conns[j] == rest[j - 1];
      }
    }

    /** An error of validation is the one of the first connection that fails. */
    lemma {:induction false} ValidateAllFirst(ps: seq<Pin>, part: BuiltinChip, conns: seq<Connection>)
      requires TablesHeld(ps) && part.Owned() && part.PinsFit(ps) && RangesOk(conns)
      ensures ValidateAll(ps, part, conns).Some? ==> exists j | 0 <= j < |conns| ::
        (Validate(ps, part, conns[j]) == ValidateAll(ps, part, conns) &&
         forall i | 0 <= i < j :: Validate(ps, part, conns[i]).None?)
      decreases |conns|
    {
      if conns != [] && Validate(ps, part, conns[0]).None? {
        var rest := conns[1..];
        assert RangesOk(rest);
        ValidateAllFirst(ps, part, rest);
        var r := ValidateAll(ps, part, rest);
        if r.Some? {
          var j :| 0 <= j < |rest| && Validate(ps, part, rest[j]) == r &&
            forall i | 0 <= i < j :: Validate(ps, part, rest[i]).None?;
          assert conns[j + 1] == rest[j];
          assert forall i | 0 <= i < j + 1 :: Validate(ps, part, conns[i]).None? by {
            forall i | 0 <= i < j + 1
              ensures Validate(ps, part, conns[i]).None?
            {
              if i > 0 {
                assert conns[i] == rest[i - 1];
              }
            }
          }
        }
      }
    }

    /** `validate_connection` over every connection, stopping at the
      * first error. */
    method ValidateConnections(part: BuiltinChip, conns: seq<Connection>) returns (e: Option<WireError>)
      requires TablesHeld(arena.pins) && part.Owned() && part.PinsFit(arena.pins) && RangesOk(conns)
      ensures e == ValidateAll(arena.pins, part, conns)
      ensures e.Some? ==> e.value.MissingPin? || e.value.WidthMismatch?
    {
      var k := 0;
      while k < |conns|
        invariant 0 <= k <= |conns| && RangesOk(conns[k..])
        invariant ValidateAll(arena.pins, part, conns[k..]) == ValidateAll(arena.pins, part, conns)
      {
        assert conns[k..][0] == conns[k] && conns[k..][1..] == conns[k + 1..];
        e := Validate(arena.pins, part, conns[k]);
        if e.Some? {
          return;
        }
        k := k + 1;
      }
      e := None;
    }

    // -------------------------------------------------------------------
    // Making connections.
    // -------------------------------------------------------------------

    /** `resolve_pin_side` while wiring: "true" and "false" become a new
      * 1-bit bus holding 1 or 0; any other name is looked up, and a miss
      * is `PinNotFound`. */
    function Resolve(ps: seq<Pin>, name: string): (r: WireResult<(seq<Pin>, PinId)>)
      reads this`inputPins, this`outputPins, this`internalPins
      requires WF(ps) && TablesHeld(ps)
      ensures r.Wired? ==> WF(r.value.0) && Grows(ps, r.value.0) && r.value.1 < |r.value.0| && r.value.0[r.value.1].Bus?
      ensures r.Refused? <==> name != "true" && name != "false" && GetPin(name).Err?
      ensures r.Refused? ==> r.error == MissingPin(name)
      ensures r.Wired? && name != "true" && name != "false" ==> r.value == (ps, GetPin(name).value)
      ensures r.Wired? && (name == "true" || name == "false") ==> r.value.1 == |ps|
    {
      if name == "true" then Wired((ConstBus(ps, true), |ps|))
      else if name == "false" then Wired((ConstBus(ps, false), |ps|))
      else
        match GetPin(name)
        case Ok(id) => Wired((ps, id))
        case Err(_) => Refused(MissingPin(name))
    }

    /** `make_input_connection`: the host side, resolved, drives the part's
      * input pin. */
    function Into(ps: seq<Pin>, vs: seq<PinId>, part: BuiltinChip, c: Connection): (r: Made)
      reads this`inputPins, this`outputPins, this`internalPins
      requires WF(ps) && TablesHeld(ps) && InRange(ps, vs) && part.Owned() && part.PinsFit(ps)
      requires SideOk(c.from) && SideOk(c.to)
      ensures WF(r.pins) && Grows(ps, r.pins) && InRange(r.pins, r.views)
      ensures r.error.Some? ==> r.error.value.MissingPin? || r.error.value.InvalidRange?
    {
      match Resolve(ps, c.from.name)
      case Refused(e) => Made(ps, vs, Some(e))
      case Wired((ps1, f)) =>
        PinsFitGrows(part, ps, ps1);
        var r := IntoPart(ps1, vs, part, f, c);
        GrowsTrans(ps, ps1, r.pins);
        r
    }

    /** The rest of `make_input_connection` once the host side is the bus
      * f: the part's pin is looked up and f drives it. */
    function IntoPart(ps: seq<Pin>, vs: seq<PinId>, part: BuiltinChip, f: PinId, c: Connection): (r: Made)
      requires WF(ps) && InRange(ps, vs) && part.Owned() && part.PinsFit(ps) && f < |ps| && ps[f].Bus?
      requires SideOk(c.from) && SideOk(c.to)
      ensures WF(r.pins) && Grows(ps, r.pins) && InRange(r.pins, r.views)
      ensures r.error.Some? ==> r.error.value.MissingPin? || r.error.value.InvalidRange?
    {
      match part.GetPin(c.to.name)
      case Err(_) => Made(ps, vs, Some(MissingPin(c.to.name)))
      case Ok(t) =>
        PartPinBus(part, ps, t);
        Joined(ps, vs, f, c.from, t, c.to)
    }

    /** `make_output_connection`: the part's output pin drives the host
      * side, resolved. */
    function OutOf(ps: seq<Pin>, vs: seq<PinId>, part: BuiltinChip, c: Connection): (r: Made)
      reads this`inputPins, this`outputPins, this`internalPins
      requires WF(ps) && TablesHeld(ps) && InRange(ps, vs) && part.Owned() && part.PinsFit(ps)
      requires SideOk(c.from) && SideOk(c.to)
      ensures WF(r.pins) && Grows(ps, r.pins) && InRange(r.pins, r.views)
      ensures r.error.Some? ==> r.error.value.MissingPin? || r.error.value.InvalidRange?
    {
      match part.GetPin(c.to.name)
      case Err(_) => Made(ps, vs, Some(MissingPin(c.to.name)))
      case Ok(f) =>
        PartPinBus(part, ps, f);
        OutToHost(ps, vs, f, c)
    }

    /** The rest of `make_output_connection` once the part's pin is the
      * bus f: the host side is resolved and f drives it. */
    function OutToHost(ps: seq<Pin>, vs: seq<PinId>, f: PinId, c: Connection): (r: Made)
      reads this`inputPins, this`outputPins, this`internalPins
      requires WF(ps) && TablesHeld(ps) && InRange(ps, vs) && f < |ps| && ps[f].Bus?
      requires SideOk(c.from) && SideOk(c.to)
      ensures WF(r.pins) && Grows(ps, r.pins) && InRange(r.pins, r.views)
      ensures r.error.Some? ==> r.error.value.MissingPin? || r.error.value.InvalidRange?
    {
      match Resolve(ps, c.from.name)
      case Refused(e) => Made(ps, vs, Some(e))
      case Wired((ps1, t)) =>
        var r := Joined(ps1, vs, f, c.to, t, c.from);
        GrowsTrans(ps, ps1, r.pins);
        r
    }

    /** `make_connection`: a part input is driven from the host, a part
      * output drives the host; a name that is neither is `MissingPin`.
      * Pins and views made before a failing step stay. */
    function Make(ps: seq<Pin>, vs: seq<PinId>, part: BuiltinChip, c: Connection): (r: Made)
      reads this`inputPins, this`outputPins, this`internalPins
      requires WF(ps) && TablesHeld(ps) && InRange(ps, vs) && part.Owned() && part.PinsFit(ps)
      requires SideOk(c.from) && SideOk(c.to)
      ensures WF(r.pins) && Grows(ps, r.pins) && InRange(r.pins, r.views)
      ensures r.error.Some? ==> r.error.value.MissingPin? || r.error.value.InvalidRange?
    {
      if part.IsInputPin(c.to.name) then Into(ps, vs, part, c)
      else if part.IsOutputPin(c.to.name) then OutOf(ps, vs, part, c)
      else Made(ps, vs, Some(MissingPin(c.to.name)))
    }

    /** The connections made in order, up to the first that fails. */
    function MakeAll(ps: seq<Pin>, vs: seq<PinId>, part: BuiltinChip, conns: seq<Connection>): (r: Made)
      reads this`inputPins, this`outputPins, this`internalPins
      requires WF(ps) && TablesHeld(ps) && InRange(ps, vs) && part.Owned() && part.PinsFit(ps)
      requires RangesOk(conns)
      ensures WF(r.pins) && Grows(ps, r.pins) && InRange(r.pins, r.views)
      ensures r.error.Some? ==> r.error.value.MissingPin? || r.error.value.InvalidRange?
      decreases |conns|
    {
      if conns == [] then Made(ps, vs, None)
      else
        var w := Make(ps, vs, part, conns[0]);
        if w.error.Some? then w
        else
          HoldsGrows(ps, w.pins, inputPins);
          HoldsGrows(ps, w.pins, outputPins);
          HoldsGrows(ps, w.pins, internalPins);
          PinsFitGrows(part, ps, w.pins);
          assert RangesOk(conns[1..]) by {
            assert forall j | 1 <= j < |conns| :: conns[j] == conns[1..][j - 1];
          }
          var r := MakeAll(w.pins, w.views, part, conns[1..]);
          GrowsTrans(ps, w.pins, r.pins);
          r
    }

    /** `resolve_pin_side`, allocating the bus of a constant. */
    method ResolveSide(name: string) returns (r: WireResult<PinId>)
      requires Valid()
      modifies arena
      ensures Valid()
      ensures r.Refused? <==> Resolve(old(arena.pins), name).Refused?
      ensures r.Refused? ==> r.error == MissingPin(name) && arena.pins == old(arena.pins)
      ensures r.Wired? ==> (arena.pins, r.value) == Resolve(old(arena.pins), name).value
    {
      var before := arena.pins;
      if name == "true" || name == "false" {
        var id := arena.NewBus(1);
        assert seq(1, _ => LOW) == [LOW];
        arena.SetBusVoltage(id, if name == "true" then 1 else 0, {});
        r := Wired(id);
      } else {
        var p := GetPin(name);
        if p.Err? {
          return Refused(MissingPin(name));
        }
        r := Wired(p.value);
      }
      Regrown(before);
    }

    /** `create_output_subbus` (output) or `create_input_subbus` for a
      * side, tracking the result when the side has a range. */
    method NarrowSide(id: PinId, side: PinSide, output: bool) returns (r: WireResult<PinId>)
      requires Valid() && id < |arena.pins| && arena.pins[id].Bus? && SideOk(side)
      modifies arena, this`views
      ensures Valid()
      ensures r.Refused? <==> Narrow(old(arena.pins), id, side, output).Refused?
      ensures r.Refused? ==> r.error == InvalidRange(side.name) && arena.pins == old(arena.pins) && views == old(views)
      ensures r.Wired? ==> (arena.pins, r.value) == Narrow(old(arena.pins), id, side, output).value
      ensures r.Wired? ==> views == Tracked(old(views), r.value, side)
    {
      var before := arena.pins;
      if side.range.None? {
        return Wired(id);
      }
      var made: Result<PinId>;
      if output {
        made := arena.CreateOutputSubBus(id, side.range.value);
      } else {
        made := arena.CreateInputSubBus(id, side.range.value);
      }
      if made.Err? {
        return Refused(InvalidRange(side.name));
      }
      assert Grows(before, arena.pins);
      Regrown(before);
      views := views + [made.value];
      r := Wired(made.value);
    }

    /** The shared tail of both directions: narrow the driving pin f to an
      * output view, then join it to the driven pin t. */
    method Join(f: PinId, fside: PinSide, t: PinId, tside: PinSide) returns (e: Option<WireError>)
      requires Valid() && f < |arena.pins| && arena.pins[f].Bus? && t < |arena.pins| && arena.pins[t].Bus?
      requires SideOk(fside) && SideOk(tside)
      modifies arena, this`views
      ensures Valid()
      ensures Made(arena.pins, views, e) == Joined(old(arena.pins), old(views), f, fside, t, tside)
    {
      var f2 := NarrowSide(f, fside, true);
      if f2.Refused? {
        return Some(f2.error);
      }
      e := JoinTo(f2.value, t, tside);
    }

    /** Narrow the driven pin t to an input view and connect f to it. */
    method JoinTo(f: PinId, t: PinId, tside: PinSide) returns (e: Option<WireError>)
      requires Valid() && f < |arena.pins| && t < |arena.pins| && arena.pins[t].Bus? && SideOk(tside)
      modifies arena, this`views
      ensures Valid()
      ensures Made(arena.pins, views, e) == JoinedTo(old(arena.pins), old(views), f, t, tside)
    {
      var t2 := NarrowSide(t, tside, false);
      if t2.Refused? {
        return Some(t2.error);
      }
      ghost var ps3 := arena.pins;
      arena.Connect(f, t2.value, {});
      ConnectedGrows(ps3, f, t2.value, {});
      Regrown(ps3);
      e := None;
    }

    /** `make_input_connection`. */
    method MakeInput(part: BuiltinChip, c: Connection) returns (e: Option<WireError>)
      requires Valid() && part.Owned() && part.PinsFit(arena.pins) && SideOk(c.from) && SideOk(c.to)
      modifies arena, this`views
      ensures Valid()
      ensures Made(arena.pins, views, e) == Into(old(arena.pins), old(views), part, c)
    {
      ghost var ps := arena.pins;
      var h := ResolveSide(c.from.name);
      if h.Refused? {
        return Some(h.error);
      }
      PinsFitGrows(part, ps, arena.pins);
      e := DrivePart(part, h.value, c);
    }

    /** `make_input_connection` after the host side resolved to the bus f. */
    method DrivePart(part: BuiltinChip, f: PinId, c: Connection) returns (e: Option<WireError>)
      requires Valid() && part.Owned() && part.PinsFit(arena.pins) && SideOk(c.from) && SideOk(c.to)
      requires f < |arena.pins| && arena.pins[f].Bus?
      modifies arena, this`views
      ensures Valid()
      ensures Made(arena.pins, views, e) == IntoPart(old(arena.pins), old(views), part, f, c)
    {
      var p := part.GetPin(c.to.name);
      if p.Err? {
        return Some(MissingPin(c.to.name));
      }
      PartPinBus(part, arena.pins, p.value);
      e := Join(f, c.from, p.value, c.to);
    }

    /** `make_output_connection`. */
    method MakeOutput(part: BuiltinChip, c: Connection) returns (e: Option<WireError>)
      requires Valid() && part.Owned() && part.PinsFit(arena.pins) && SideOk(c.from) && SideOk(c.to)
      modifies arena, this`views
      ensures Valid()
      ensures Made(arena.pins, views, e) == OutOf(old(arena.pins), old(views), part, c)
    {
      var p := part.GetPin(c.to.name);
      if p.Err? {
        return Some(MissingPin(c.to.name));
      }
      PartPinBus(part, arena.pins, p.value);
      e := DriveHost(p.value, c);
    }

    /** `make_output_connection` after the part's pin resolved to the bus f. */
    method DriveHost(f: PinId, c: Connection) returns (e: Option<WireError>)
      requires Valid() && SideOk(c.from) && SideOk(c.to) && f < |arena.pins| && arena.pins[f].Bus?
      modifies arena, this`views
      ensures Valid()
      ensures Made(arena.pins, views, e) == OutToHost(old(arena.pins), old(views), f, c)
    {
      var h := ResolveSide(c.from.name);
      if h.Refused? {
        return Some(h.error);
      }
      e := Join(f, c.to, h.value, c.from);
    }

    /** `make_connection`. */
    method MakeConnection(part: BuiltinChip, c: Connection) returns (e: Option<WireError>)
      requires Valid() && part.Owned() && part.PinsFit(arena.pins) && SideOk(c.from) && SideOk(c.to)
      modifies arena, this`views
      ensures Valid()
      ensures Made(arena.pins, views, e) == Make(old(arena.pins), old(views), part, c)
    {
      if part.IsInputPin(c.to.name) {
        e := MakeInput(part, c);
      } else if part.IsOutputPin(c.to.name) {
        e := MakeOutput(part, c);
      } else {
        e := Some(MissingPin(c.to.name));
      }
    }

    /** `make_connection` over every connection, stopping at the first
      * error. */
    method MakeConnections(part: BuiltinChip, conns: seq<Connection>) returns (e: Option<WireError>)
      requires Valid() && part.Owned() && part.PinsFit(arena.pins) && RangesOk(conns)
      modifies arena, this`views
      ensures Valid() && part.PinsFit(arena.pins)
      ensures Made(arena.pins, views, e) == MakeAll(old(arena.pins), old(views), part, conns)
    {
      ghost var goal := MakeAll(arena.pins, views, part, conns);
      assert conns[0..] == conns;
      var k := 0;
      while k < |conns|
        invariant k <= |conns| && Making(part, conns[k..], goal)
      {
        e := MakeOne(part, conns[k..], goal);
        if e.Some? {
          return;
        }
        assert conns[k..][1..] == conns[k + 1..];
        k := k + 1;
      }
      e := None;
    }

    /** Where the loop of `make_connection`s stands: the connections rest
      * are still to be made, and making them reaches goal. */
    ghost predicate Making(part: BuiltinChip, rest: seq<Connection>, goal: Made)
      reads this, arena, Repr
    {
      Valid() && part.Owned() && part.PinsFit(arena.pins) && RangesOk(rest) &&
      MakeAll(arena.pins, views, part, rest) == goal
    }

    /** The next connection of the loop. */
    method MakeOne(part: BuiltinChip, rest: seq<Connection>, ghost goal: Made) returns (e: Option<WireError>)
      requires rest != [] && Making(part, rest, goal)
      modifies arena, this`views
      ensures Valid() && part.PinsFit(arena.pins)
      ensures e.Some? ==> Made(arena.pins, views, e) == goal
      ensures e.None? ==> Making(part, rest[1..], goal)
    {
      ghost var ps := arena.pins;
      MakeAllUnfold(ps, views, part, rest);
      e := MakeConnection(part, rest[0]);
      PinsFitGrows(part, ps, arena.pins);
    }

    /** One step of `MakeAll`: the first connection made, then the rest. */
    lemma MakeAllUnfold(ps: seq<Pin>, vs: seq<PinId>, part: BuiltinChip, conns: seq<Connection>)
      requires WF(ps) && TablesHeld(ps) && InRange(ps, vs) && part.Owned() && part.PinsFit(ps)
      requires RangesOk(conns) && conns != []
      ensures SideOk(conns[0].from) && SideOk(conns[0].to) && RangesOk(conns[1..])
      ensures var w := Make(ps, vs, part, conns[0]);
        w.error.None? ==> TablesHeld(w.pins) && part.PinsFit(w.pins)
      ensures var w := Make(ps, vs, part, conns[0]);
        MakeAll(ps, vs, part, conns) == if w.error.Some? then w else MakeAll(w.pins, w.views, part, conns[1..])
    {
      var w := Make(ps, vs, part, conns[0]);
      HoldsGrows(ps, w.pins, inputPins);
      HoldsGrows(ps, w.pins, outputPins);
      HoldsGrows(ps, w.pins, internalPins);
      PinsFitGrows(part, ps, w.pins);
      assert forall j | 1 <= j < |conns| :: conns[j] == conns[1..][j - 1];
    }

    /** An input connection without ranges, from the host pin h named by
      * `from` (not a constant) to the part's input pin p named by `to`:
      * h comes to drive p, p takes h's value at its own width, and no
      * view is tracked. */
    lemma MakeIntoPlain(ps: seq<Pin>, vs: seq<PinId>, part: BuiltinChip, c: Connection, h: PinId, p: PinId)
      requires WF(ps) && TablesHeld(ps) && InRange(ps, vs) && part.Owned() && part.PinsFit(ps)
      requires SideOk(c.from) && SideOk(c.to) && c.from.range.None? && c.to.range.None?
      requires c.from.name != "true" && c.from.name != "false" && GetPin(c.from.name) == Ok(h)
      requires part.IsInputPin(c.to.name) && part.GetPin(c.to.name) == Ok(p)
      requires h < |ps| && p < |ps| && h != p
      ensures Make(ps, vs, part, c) == Made(Connected(ps, h, p, {}), vs, None)
      ensures Connected(ps, h, p, {})[h] == Bus(ps[h].width, ps[h].state, ps[h].conns + [p])
      ensures Value(Connected(ps, h, p, {}), p) == And(Value(ps, h), Mask(ps[p].width))
    {
      GetPinBus(ps, c.from.name);
      PartPinBus(part, ps, p);
      ConnectCopies(ps, h, p);
    }

    /** An output connection without ranges, from the part's output pin f
      * named by `to` to the host pin h named by `from` (not a constant):
      * f comes to drive h, h takes f's value at its own width, and no view
      * is tracked. */
    lemma MakeOutOfPlain(ps: seq<Pin>, vs: seq<PinId>, part: BuiltinChip, c: Connection, f: PinId, h: PinId)
      requires WF(ps) && TablesHeld(ps) && InRange(ps, vs) && part.Owned() && part.PinsFit(ps)
      requires SideOk(c.from) && SideOk(c.to) && c.from.range.None? && c.to.range.None?
      requires c.from.name != "true" && c.from.name != "false" && GetPin(c.from.name) == Ok(h)
      requires !part.IsInputPin(c.to.name) && part.IsOutputPin(c.to.name) && part.GetPin(c.to.name) == Ok(f)
      requires h < |ps| && f < |ps| && h != f
      ensures Make(ps, vs, part, c) == Made(Connected(ps, f, h, {}), vs, None)
      ensures Connected(ps, f, h, {})[f] == Bus(ps[f].width, ps[f].state, ps[f].conns + [h])
      ensures Value(Connected(ps, f, h, {}), h) == And(Value(ps, f), Mask(ps[h].width))
    {
      GetPinBus(ps, c.from.name);
      PartPinBus(part, ps, f);
      ConnectCopies(ps, f, h);
    }

    /** The pins of a Not part, looked up by name. */
    static lemma NotPins(part: BuiltinChip)
      requires part.Tabled() && part.kind == NotChip
      ensures part.Owned()
      ensures part.IsInputPin("in") && part.GetPin("in") == Ok(part.inputs[0])
      ensures !part.IsInputPin("out") && part.IsOutputPin("out") && part.GetPin("out") == Ok(part.outputs[0])
    {
      assert part.inputPins == [("in", part.inputs[0])] && part.outputPins == [("out", part.outputs[0])];
      assert part.internalPins == [];
      assert part.inputPins[0].0 == "in" && part.outputPins[0].0 == "out";
    }

    /** A first connection that is a plain input connection from host pin
      * h to part pin p: the rest are made from the arena in which h
      * drives p. */
    lemma MakeAllIntoFirst(ps: seq<Pin>, vs: seq<PinId>, part: BuiltinChip, conns: seq<Connection>, h: PinId, p: PinId)
      requires WF(ps) && TablesHeld(ps) && InRange(ps, vs) && part.Owned() && part.PinsFit(ps)
      requires RangesOk(conns) && conns != [] && conns[0].from.range.None? && conns[0].to.range.None?
      requires conns[0].from.name != "true" && conns[0].from.name != "false" && GetPin(conns[0].from.name) == Ok(h)
      requires part.IsInputPin(conns[0].to.name) && part.GetPin(conns[0].to.name) == Ok(p)
      requires h < |ps| && p < |ps| && h != p
      ensures var ps1 := Connected(ps, h, p, {});
        && WF(ps1) && TablesHeld(ps1) && part.PinsFit(ps1) && Grows(ps, ps1) && RangesOk(conns[1..])
        && MakeAll(ps, vs, part, conns) == MakeAll(ps1, vs, part, conns[1..])
    {
      MakeIntoPlain(ps, vs, part, conns[0], h, p);
      MakeAllUnfold(ps, vs, part, conns);
    }

    /** A last connection that is a plain output connection from part pin
      * f to host pin h: the wiring ends with f driving h. */
    lemma MakeAllOutOfLast(ps: seq<Pin>, vs: seq<PinId>, part: BuiltinChip, conns: seq<Connection>, f: PinId, h: PinId)
      requires WF(ps) && TablesHeld(ps) && InRange(ps, vs) && part.Owned() && part.PinsFit(ps)
      requires RangesOk(conns) && |conns| == 1 && conns[0].from.range.None? && conns[0].to.range.None?
      requires conns[0].from.name != "true" && conns[0].from.name != "false" && GetPin(conns[0].from.name) == Ok(h)
      requires !part.IsInputPin(conns[0].to.name) && part.IsOutputPin(conns[0].to.name) && part.GetPin(conns[0].to.name) == Ok(f)
      requires h < |ps| && f < |ps| && h != f
      ensures MakeAll(ps, vs, part, conns) == Made(Connected(ps, f, h, {}), vs, None)
    {
      MakeOutOfPlain(ps, vs, part, conns[0], f, h);
      MakeAllUnfold(ps, vs, part, conns);
      assert conns[1..] == [];
    }

    /** `NotWiring` is two plain connections, `in` then `out`. */
    static lemma NotWiringShape()
      ensures RangesOk(NotWiring) && |NotWiring| == 2
      ensures NotWiring[0] == Connection(PinSide("in", None), PinSide("in", None))
      ensures NotWiring[1..] == [Connection(PinSide("out", None), PinSide("out", None))]
      ensures "in" != "true" && "in" != "false" && "out" != "true" && "out" != "false"
    {
      assert "in"[0] != "true"[0] && "in"[0] != "false"[0];
      assert "out"[0] != "true"[0] && "out"[0] != "false"[0];
    }

    /** Making `NotWiring` connects the host's `in` to the part's input,
      * then the part's output to the host's `out`, and tracks no view. */
    lemma NotWiringMakes(ps: seq<Pin>, part: BuiltinChip, hIn: PinId, hOut: PinId)
      requires WF(ps) && TablesHeld(ps) && part.Tabled() && part.PinsFit(ps) && part.kind == NotChip
      requires GetPin("in") == Ok(hIn) && GetPin("out") == Ok(hOut)
      requires hIn != part.inputs[0] && hOut != part.outputs[0]
      ensures part.Owned() && RangesOk(NotWiring)
      ensures MakeAll(ps, [], part, NotWiring)
        == Made(Connected(Connected(ps, hIn, part.inputs[0], {}), part.outputs[0], hOut, {}), [], None)
    {
      NotPins(part);
      NotWiringShape();
      MakeAllIntoFirst(ps, [], part, NotWiring, hIn, part.inputs[0]);
      MakeAllOutOfLast(Connected(ps, hIn, part.inputs[0], {}), [], part, NotWiring[1..], part.outputs[0], hOut);
    }

    /** Making `NotWiring`: the host's `in` comes to drive the part's
      * input and the part's output the host's `out`, with no view
      * tracked. */
    lemma NotWired(ps: seq<Pin>, part: BuiltinChip, hIn: PinId, hOut: PinId)
      requires WF(ps) && TablesHeld(ps) && part.Tabled() && part.PinsFit(ps) && part.kind == NotChip
      requires GetPin("in") == Ok(hIn) && GetPin("out") == Ok(hOut)
      requires Leaf(ps, hIn) && Leaf(ps, hOut) && Leaf(ps, part.inputs[0]) && Leaf(ps, part.outputs[0])
      requires Unique([hIn, hOut, part.inputs[0], part.outputs[0]])
      ensures part.Owned() && RangesOk(NotWiring)
      ensures var m := MakeAll(ps, [], part, NotWiring);
        && m.error.None? && m.views == [] && Grows(ps, m.pins) && WF(m.pins) && part.PinsFit(m.pins)
        && m.pins[hIn].Bus? && m.pins[hIn].conns == [part.inputs[0]] && Leaf(m.pins, part.inputs[0])
        && m.pins[part.outputs[0]].Bus? && m.pins[part.outputs[0]].conns == [hOut] && Leaf(m.pins, hOut)
    {
      var pIn, pOut := part.inputs[0], part.outputs[0];
      var ids := [hIn, hOut, pIn, pOut];
      assert ids[0] != ids[1] && ids[0] != ids[2] && ids[0] != ids[3];
      assert ids[1] != ids[2] && ids[1] != ids[3] && ids[2] != ids[3];
      NotWiringMakes(ps, part, hIn, hOut);
      TwoConnections(ps, hIn, pIn, pOut, hOut);
      PinsFitGrows(part, ps, Connected(Connected(ps, hIn, pIn, {}), pOut, hOut, {}));
    }

    /** Two connections between four distinct buses that drive nothing:
      * each source then drives exactly its target, which drives nothing. */
    lemma TwoConnections(ps: seq<Pin>, a: PinId, b: PinId, c: PinId, d: PinId)
      requires WF(ps) && Leaf(ps, a) && Leaf(ps, b) && Leaf(ps, c) && Leaf(ps, d)
      requires a != b && a != c && a != d && b != c && b != d && c != d
      ensures var rs := Connected(Connected(ps, a, b, {}), c, d, {});
        && Grows(ps, rs) && WF(rs)
        && rs[a].Bus? && rs[a].conns == [b] && Leaf(rs, b)
        && rs[c].Bus? && rs[c].conns == [d] && Leaf(rs, d)
    {
      ConnectLeafOnly(ps, a, b);
      ConnectedGrows(ps, a, b, {});
      var ps1 := Connected(ps, a, b, {});
      assert ps1[c] == ps[c] && ps1[d] == ps[d];
      ConnectLeafOnly(ps1, c, d);
      ConnectedGrows(ps1, c, d, {});
      var ps2 := Connected(ps1, c, d, {});
      assert ps2[a] == ps1[a] && ps2[b] == ps1[b];
      GrowsTrans(ps, ps1, ps2);
    }

    /** `test_simple_wire_connection`: a Not part wired with its input
      * from the host's `in` and its output to the host's `out`, all four
      * pins distinct buses that drive nothing yet, of any widths (the test
      * has 1-bit pins; only bit 0 is pulled and read). The
      * wiring succeeds and tracks no view; after `in` is pulled to x and
      * the chip evaluates, `out` holds HIGH for LOW and LOW for HIGH. */
    lemma WiredNotInverts(ps: seq<Pin>, part: BuiltinChip, hIn: PinId, hOut: PinId, x: Voltage)
      requires WF(ps) && TablesHeld(ps) && part.Tabled() && part.PinsFit(ps) && part.kind == NotChip
      requires GetPin("in") == Ok(hIn) && GetPin("out") == Ok(hOut)
      requires Leaf(ps, hIn) && Leaf(ps, hOut) && Leaf(ps, part.inputs[0]) && Leaf(ps, part.outputs[0])
      requires Unique([hIn, hOut, part.inputs[0], part.outputs[0]])
      ensures part.Owned() && RangesOk(NotWiring)
      ensures var m := MakeAll(ps, [], part, NotWiring);
        m.error.None? && m.views == [] && hIn < |m.pins| &&
        var ps1 := Pulled(m.pins, hIn, x, 0, {});
        AllFit(ps1, [part.State()]) &&
        var r := Refresh(EvalAll(Refresh(ps1, m.views), [part.State()]).0, m.views);
        hOut < |r| && r[hOut].Bus? && |r[hOut].state| >= 1 && r[hOut].state[0] == (if x == HIGH then LOW else HIGH)
    {
      NotWired(ps, part, hIn, hOut);
      var m := MakeAll(ps, [], part, NotWiring);
      NotEvaluates(m.pins, part.State(), hIn, hOut, x);
    }

    /** `wire(part, connections)`: every connection is validated before
      * any is made; a validation failure changes nothing. Connections are
      * then made in order; a failing one stops the rest, keeps what was
      * made before it, and leaves the part out of the sub-chips. */
    method Wire(part: BuiltinChip, conns: seq<Connection>) returns (r: WireResult<()>)
      requires Valid() && Joinable(part) && RangesOk(conns)
      modifies arena, this`views, this`parts, this`Repr
      ensures Valid()
      ensures r.Refused? ==> Reported(r.error)
      ensures ValidateAll(old(arena.pins), part, conns).Some? ==>
        (r == Refused(ValidateAll(old(arena.pins), part, conns).value) &&
        arena.pins == old(arena.pins) && views == old(views) && parts == old(parts))
      ensures ValidateAll(old(arena.pins), part, conns).None? ==>
        (arena.pins, views) == (MakeAll(old(arena.pins), old(views), part, conns).pins,
          MakeAll(old(arena.pins), old(views), part, conns).views)
      ensures ValidateAll(old(arena.pins), part, conns).None? ==>
        var err := MakeAll(old(arena.pins), old(views), part, conns).error;
        (err.None? ==> r == Wired(()) && parts == old(parts) + [part]) &&
        (err.Some? ==> r == Refused(err.value) && parts == old(parts))
    {
      var e := ValidateConnections(part, conns);
      if e.Some? {
        return Refused(e.value);
      }
      r := Attach(part, conns);
    }

    /** The second half of `wire`, after validation: the connections are
      * made in order and, when all of them succeed, the part joins the
      * sub-chips. */
    method Attach(part: BuiltinChip, conns: seq<Connection>) returns (r: WireResult<()>)
      requires Valid() && Joinable(part) && RangesOk(conns)
      modifies arena, this`views, this`parts, this`Repr
      ensures Valid()
      ensures r.Refused? ==> Reported(r.error)
      ensures (arena.pins, views) == (MakeAll(old(arena.pins), old(views), part, conns).pins,
        MakeAll(old(arena.pins), old(views), part, conns).views)
      ensures var err := MakeAll(old(arena.pins), old(views), part, conns).error;
        (err.None? ==> r == Wired(()) && parts == old(parts) + [part]) &&
        (err.Some? ==> r == Refused(err.value) && parts == old(parts))
    {
      ghost var goal := MakeAll(arena.pins, views, part, conns);
      var e := MakeConnections(part, conns);
      assert e == goal.error;
      if e.Some? {
        return Refused(e.value);
      }
      AddSubChip(part);
      r := Wired(());
    }

    // -------------------------------------------------------------------
    // eval and reset.
    // -------------------------------------------------------------------

    /** `propagate_subbus_signals`. */
    method PropagateViews()
      requires Valid()
      modifies arena
      ensures Valid() && arena.pins == Refresh(old(arena.pins), views)
      ensures forall j | 0 <= j < |parts| :: parts[j].memory.data == old(parts[j].memory.data)
    {
      assert views[0..] == views;
      var k := 0;
      while k < |views|
        invariant k <= |views| && Refreshing(k, old(arena.pins))
      {
        RefreshOne(k, old(arena.pins));
        k := k + 1;
      }
    }

    /** Where `propagate_subbus_signals` stands after the first k views,
      * starting from the arena ps. */
    ghost predicate Refreshing(k: nat, ps: seq<Pin>)
      reads this, arena, Repr
    {
      Valid() && k <= |views| && WF(ps) && InRange(ps, views) &&
      Refresh(arena.pins, views[k..]) == Refresh(ps, views)
    }

    /** The next view writes itself its own value. */
    method RefreshOne(k: nat, ghost ps: seq<Pin>)
      requires k < |views| && Refreshing(k, ps)
      modifies arena
      ensures Refreshing(k + 1, ps)
    {
      var before := arena.pins;
      RefreshStep(before, views, k);
      var v := arena.BusVoltage(views[k]);
      arena.SetBusVoltage(views[k], v, {});
      assert unchanged(Repr);
      Regrown(before);
    }

    /** The sub-chips, as values, fit the arena of a valid chip. */
    lemma StatesFit()
      requires Valid()
      ensures AllFit(arena.pins, StatesOf(parts))
    {
      forall j | 0 <= j < |parts|
        ensures StateFits(arena.pins, StatesOf(parts)[j])
      {
        PartValid(j);
      }
    }

    /** Where `eval`'s loop stands after the first k sub-chips, for sub-chips
      * that started as ss and an arena and memories that end as fin. */
    ghost predicate EvalDone(k: nat, ss: seq<PartState>, fin: (seq<Pin>, seq<seq<Word>>))
      reads this, arena, Repr
    {
      Valid() && k <= |parts| == |ss| == |fin.1| && AllFit(arena.pins, ss[k..]) &&
      (forall j | k <= j < |parts| :: parts[j].State() == ss[j]) &&
      (forall j | 0 <= j < k :: parts[j].memory.data == fin.1[j]) &&
      EvalAll(arena.pins, ss[k..]) == (fin.0, fin.1[k..])
    }

    /** The loop of `eval` over the sub-chips. */
    method EvalParts()
      requires Valid()
      modifies arena, Memories()
      ensures Valid() && AllFit(old(arena.pins), old(StatesOf(parts)))
      ensures var e := EvalAll(old(arena.pins), old(StatesOf(parts)));
        arena.pins == e.0 && forall j | 0 <= j < |parts| :: parts[j].memory.data == e.1[j]
    {
      ghost var ss := StatesOf(parts);
      StatesFit();
      ghost var fin := EvalAll(arena.pins, ss);
      EvalStart(ss, fin);
      var k := 0;
      while k < |parts|
        invariant k <= |parts| && EvalDone(k, ss, fin)
      {
        EvalOne(k, ss, fin);
        k := k + 1;
      }
      EvalEnd(ss, fin);
    }

    /** Before the loop nothing has run yet. */
    lemma EvalStart(ss: seq<PartState>, fin: (seq<Pin>, seq<seq<Word>>))
      requires Valid() && ss == StatesOf(parts) && AllFit(arena.pins, ss) && fin == EvalAll(arena.pins, ss)
      ensures EvalDone(0, ss, fin)
    {
      assert ss[0..] == ss;
    }

    /** After the loop every sub-chip has run. */
    lemma EvalEnd(ss: seq<PartState>, fin: (seq<Pin>, seq<seq<Word>>))
      requires EvalDone(|parts|, ss, fin)
      ensures Valid() && arena.pins == fin.0 && forall j | 0 <= j < |parts| :: parts[j].memory.data == fin.1[j]
    {
      assert ss[|parts|..] == [];
    }

    /** One sub-chip's `eval`: the next one in wiring order. */
    method EvalOne(k: nat, ghost ss: seq<PartState>, ghost fin: (seq<Pin>, seq<seq<Word>>))
      requires k < |parts| && EvalDone(k, ss, fin)
      modifies arena, parts[k].memory
      ensures EvalDone(k + 1, ss, fin)
    {
      EvalNext(arena.pins, ss, k, fin);
      EvalAt(k);
    }

    /** The k-th sub-chip evaluates; the others keep their state. */
    method EvalAt(k: nat)
      requires Valid() && k < |parts|
      modifies arena, parts[k].memory
      ensures Valid() && StateFits(old(arena.pins), old(parts[k].State()))
      ensures (arena.pins, parts[k].memory.data) == EvalPart(old(arena.pins), old(parts[k].State()))
      ensures forall j | 0 <= j < |parts| && j != k :: parts[j].State() == old(parts[j].State())
    {
      var before := arena.pins;
      PartValid(k);
      parts[k].Eval();
      KeptGrows(before, arena.pins);
      Regrown(before);
      forall j | 0 <= j < |parts| && j != k
        ensures parts[j].State() == old(parts[j].State()) && parts[j].memory.Valid()
      {
        SeparateAt(parts, j, k);
      }
    }

    /** `eval`: the views propagate, every sub-chip evaluates once in
      * wiring order, and the views propagate again. */
    method Eval()
      requires Valid()
      modifies arena, Memories()
      ensures Valid()
      ensures AllFit(Refresh(old(arena.pins), views), old(StatesOf(parts)))
      ensures var e := EvalAll(Refresh(old(arena.pins), views), old(StatesOf(parts)));
        arena.pins == Refresh(e.0, views) && forall j | 0 <= j < |parts| :: parts[j].memory.data == e.1[j]
    {
      ghost var ss := StatesOf(parts);
      PropagateViews();
      assert StatesOf(parts) == ss;
      EvalRefresh();
    }

    /** The sub-chips evaluated in wiring order, then the views propagated. */
    method EvalRefresh()
      requires Valid()
      modifies arena, Memories()
      ensures Valid() && AllFit(old(arena.pins), old(StatesOf(parts)))
      ensures var e := EvalAll(old(arena.pins), old(StatesOf(parts)));
        arena.pins == Refresh(e.0, views) && forall j | 0 <= j < |parts| :: parts[j].memory.data == e.1[j]
    {
      ghost var e := EvalAll(arena.pins, StatesOf(parts));
      EvalParts();
      assert forall j | 0 <= j < |parts| :: parts[j].memory.data == e.1[j];
      PropagateViews();
    }

    /** The loop of `reset` over the sub-chips. */
    method ResetParts()
      requires Valid()
      modifies arena, Parts(), Memories()
      ensures Valid() && AllFit(old(arena.pins), old(StatesOf(parts)))
      ensures var e := ResetAll(old(arena.pins), old(StatesOf(parts)));
        arena.pins == e.0 && StatesOf(parts) == e.1
    {
      ghost var ss := StatesOf(parts);
      StatesFit();
      ghost var fin := ResetAll(arena.pins, ss);
      ResetStart(ss, fin);
      var k := 0;
      while k < |parts|
        invariant k <= |parts| && ResetDone(k, ss, fin)
      {
        ResetOne(k, ss, fin);
        k := k + 1;
      }
      ResetEnd(ss, fin);
    }

    /** Where `reset`'s loop stands after the first k sub-chips, for sub-chips
      * that started as ss and an arena and sub-chips that end as fin. */
    ghost predicate ResetDone(k: nat, ss: seq<PartState>, fin: (seq<Pin>, seq<PartState>))
      reads this, arena, Repr
    {
      Valid() && k <= |parts| == |ss| == |fin.1| && AllFit(arena.pins, ss[k..]) &&
      (forall j | k <= j < |parts| :: parts[j].State() == ss[j]) &&
      (forall j | 0 <= j < k :: parts[j].State() == fin.1[j]) &&
      ResetAll(arena.pins, ss[k..]) == (fin.0, fin.1[k..])
    }

    /** Before the loop nothing has been reset yet. */
    lemma ResetStart(ss: seq<PartState>, fin: (seq<Pin>, seq<PartState>))
      requires Valid() && ss == StatesOf(parts) && AllFit(arena.pins, ss) && fin == ResetAll(arena.pins, ss)
      ensures ResetDone(0, ss, fin)
    {
      assert ss[0..] == ss;
    }

    /** After the loop every sub-chip has been reset. */
    lemma ResetEnd(ss: seq<PartState>, fin: (seq<Pin>, seq<PartState>))
      requires ResetDone(|parts|, ss, fin)
      ensures Valid() && arena.pins == fin.0 && StatesOf(parts) == fin.1
    {
      assert ss[|parts|..] == [];
    }

    /** One sub-chip's `reset`: the next one in wiring order. */
    method ResetOne(k: nat, ghost ss: seq<PartState>, ghost fin: (seq<Pin>, seq<PartState>))
      requires k < |parts| && ResetDone(k, ss, fin)
      modifies arena, parts[k], parts[k].memory
      ensures ResetDone(k + 1, ss, fin)
    {
      ResetNext(arena.pins, ss, k, fin);
      ResetAt(k);
    }

    /** The k-th sub-chip resets; the others keep their state. */
    method ResetAt(k: nat)
      requires Valid() && k < |parts|
      modifies arena, parts[k], parts[k].memory
      ensures Valid() && StateFits(old(arena.pins), old(parts[k].State()))
      ensures (arena.pins, parts[k].State()) == ResetPart(old(arena.pins), old(parts[k].State()))
      ensures forall j | 0 <= j < |parts| && j != k :: parts[j].State() == old(parts[j].State())
    {
      var before := arena.pins;
      PartValid(k);
      parts[k].Reset();
      KeptGrows(before, arena.pins);
      Regrown(before);
      forall j | 0 <= j < |parts| && j != k
        ensures parts[j].State() == old(parts[j].State()) && parts[j].memory.Valid()
      {
        SeparateAt(parts, j, k);
      }
    }

    /** One table's loop of `reset`: `set_bus_voltage(0)` on each pin. */
    method ZeroPins(ids: seq<PinId>)
      requires Valid() && InRange(arena.pins, ids)
      modifies arena
      ensures Valid() && InArena(old(arena.pins), Zeroed(ids))
      ensures arena.pins == Apply(old(arena.pins), Zeroed(ids))
    {
      var ws := Zeroed(ids);
      var k := 0;
      while k < |ids|
        invariant 0 <= k <= |ids| && Valid() && Kept(old(arena.pins), arena.pins)
        invariant InArena(arena.pins, ws[k..])
        invariant Apply(arena.pins, ws[k..]) == Apply(old(arena.pins), ws)
      {
        assert ws[k..][0] == ws[k] && ws[k..][1..] == ws[k + 1..];
        var before := arena.pins;
        arena.SetBusVoltage(ids[k], 0, {});
        KeptTrans(old(arena.pins), before, arena.pins);
        KeptGrows(before, arena.pins);
        Regrown(before);
        k := k + 1;
      }
    }

    /** `reset`: every sub-chip resets in wiring order, then every input,
      * output and internal pin is set to 0, table by table. */
    method Reset()
      requires Valid()
      modifies arena, Parts(), Memories()
      ensures Valid()
      ensures AllFit(old(arena.pins), old(StatesOf(parts)))
      ensures StatesOf(parts) == ResetAll(old(arena.pins), old(StatesOf(parts))).1
      ensures var ps := ResetAll(old(arena.pins), old(StatesOf(parts))).0;
        var ws := Zeroed(Ids(inputPins) + Ids(outputPins) + Ids(internalPins));
        InArena(ps, ws) && arena.pins == Apply(ps, ws)
    {
      ghost var ss := StatesOf(parts);
      ghost var e := ResetAll(arena.pins, ss);
      ResetParts();
      assert arena.pins == e.0 && StatesOf(parts) == e.1;
      ZeroTables();
    }

    /** The tail of `reset`: the input, output and internal pins are set
      * to 0, table by table. */
    method ZeroTables()
      requires Valid()
      modifies arena
      ensures Valid()
      ensures var ws := Zeroed(Ids(inputPins) + Ids(outputPins) + Ids(internalPins));
        InArena(old(arena.pins), ws) && arena.pins == Apply(old(arena.pins), ws)
      ensures StatesOf(parts) == old(StatesOf(parts))
    {
      ghost var mid := arena.pins;
      HoldsIds(arena.pins, inputPins);
      HoldsIds(arena.pins, outputPins);
      HoldsIds(arena.pins, internalPins);
      ZeroPins(Ids(inputPins));
      ZeroPins(Ids(outputPins));
      ZeroPins(Ids(internalPins));
      ThreeApplies(mid, Ids(inputPins), Ids(outputPins), Ids(internalPins));
    }
  }

  /** The pins of three tables set in turn are set by one list. */
  lemma ThreeApplies(ps: seq<Pin>, a: seq<PinId>, b: seq<PinId>, c: seq<PinId>)
    requires WF(ps) && InRange(ps, a) && InRange(ps, b) && InRange(ps, c)
    ensures InArena(ps, Zeroed(a + b + c))
    ensures Apply(ps, Zeroed(a + b + c)) == Apply(Apply(Apply(ps, Zeroed(a)), Zeroed(b)), Zeroed(c))
  {
    assert Zeroed(a + b + c) == Zeroed(a) + Zeroed(b) + Zeroed(c);
    ApplyAppend(ps, Zeroed(a), Zeroed(b));
    ApplyAppend(ps, Zeroed(a) + Zeroed(b), Zeroed(c));
    ApplyAppend(Apply(ps, Zeroed(a)), Zeroed(b), Zeroed(c));
  }

  /** The pins of a table that holds buses are in the arena. */
  lemma HoldsIds(ps: seq<Pin>, t: PinTable)
    requires Holds(ps, t)
    ensures InRange(ps, Ids(t))
  {
    forall j | 0 <= j < |t|
      ensures Ids(t)[j] < |ps|
    {
      assert t[j] in t;
    }
  }

  /** A table entry added for a bus keeps the table holding buses. */
  lemma {:induction false} InsertHolds(ps: seq<Pin>, t: PinTable, name: string, id: PinId)
    requires Holds(ps, t) && id < |ps| && ps[id].Bus?
    ensures Holds(ps, Insert(t, name, id))
  {
    if t != [] && t[0].0 != name {
      InsertHolds(ps, t[1..], name, id);
    }
  }
}
