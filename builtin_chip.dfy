// A builtin chip object: its pins in the shared arena, the state it keeps
// between clock edges and its memory. The engine's one struct per chip
// behind `Box<dyn ChipInterface>` is one class here whose `kind` selects
// the behaviour; each operation is proved to perform the writes that the
// functions of `Builtins` describe.
module BuiltinChips {
  import opened Signal
  import opened Errors
  import opened Wiring
  import opened Memories
  import opened Builtins

  /** The consecutive pin ids start, start + 1, ..., start + n - 1. */
  function Span(start: nat, n: nat): (r: seq<PinId>)
    ensures |r| == n && forall j | 0 <= j < n :: r[j] == start + j
  {
    seq(n, j requires 0 <= j < n => start + j)
  }

  /** Two spans side by side make one. */
  lemma SpanJoin(start: nat, n: nat, m: nat)
    ensures Span(start, n) + Span(start + n, m) == Span(start, n + m)
  {
    var l := Span(start, n) + Span(start + n, m);
    forall j | 0 <= j < n + m
      ensures l[j] == start + j
    {
      if j >= n {
        assert l[j] == Span(start + n, m)[j - n];
      }
    }
  }

  /** A new bus as `Bus::new` makes it: all LOW, driving nothing. */
  predicate IsFresh(p: Pin)
  {
    p.Bus? && p == Bus(p.width, seq(p.width, _ => LOW), [])
  }

  /** Every pin from `from` on is a new bus. */
  predicate FreshFrom(ps: seq<Pin>, from: nat)
  {
    forall i | from <= i < |ps| :: IsFresh(ps[i])
  }

  /** A new bus reads 0. */
  lemma FreshValue(ps: seq<Pin>, i: PinId)
    requires WF(ps) && i < |ps| && IsFresh(ps[i])
    ensures Value(ps, i) == 0
  {
    assert PinOk(ps, ps[i]);
    PackLow(ps[i].width);
  }

  /** Growing the arena keeps the new buses already there. */
  lemma FreshGrown(ps: seq<Pin>, rs: seq<Pin>, from: nat)
    requires FreshFrom(ps, from) && FreshFrom(rs, |ps|) && |ps| <= |rs| && rs[..|ps|] == ps
    ensures FreshFrom(rs, from)
  {
    forall i | from <= i < |rs|
      ensures IsFresh(rs[i])
    {
      if i < |ps| {
        assert rs[..|ps|][i] == rs[i];
      }
    }
  }

  /** No pin id occurs twice. */
  predicate Unique(ids: seq<PinId>)
  {
    forall i, j | 0 <= i < j < |ids| :: ids[i] != ids[j]
  }

  /** Fitting pins stay fitting when only bus states change. */
  lemma FitsKept(ps: seq<Pin>, rs: seq<Pin>, ids: seq<PinId>, decls: seq<Decl>)
    requires Fits(ps, ids, decls) && Kept(ps, rs)
    ensures Fits(rs, ids, decls)
  {
    forall j | 0 <= j < |ids|
      ensures rs[ids[j]].Bus? && rs[ids[j]].width == decls[j].width
    {
      assert Same(ps[ids[j]], rs[ids[j]]);
    }
  }

  /** A pin of a fitting table is a bus of the arena. */
  lemma FitsBus(ps: seq<Pin>, ids: seq<PinId>, decls: seq<Decl>, p: PinId)
    requires Fits(ps, ids, decls) && p in ids
    ensures p < |ps| && ps[p].Bus?
  {
    var j :| 0 <= j < |ids| && ids[j] == p;
  }

  /** Fitting pins stay fitting when the arena grows. */
  lemma FitsGrown(ps: seq<Pin>, rs: seq<Pin>, ids: seq<PinId>, decls: seq<Decl>)
    requires Fits(ps, ids, decls) && |ps| <= |rs| && rs[..|ps|] == ps
    ensures Fits(rs, ids, decls)
  {
    forall j | 0 <= j < |ids|
      ensures rs[ids[j]] == ps[ids[j]]
    {
      assert rs[..|ps|][ids[j]] == rs[ids[j]];
    }
  }

  /** The buses `Bus::new` makes for decls, in order: each of its
    * declaration's width, LOW throughout, driving nothing. */
  function FreshBuses(decls: seq<Decl>): seq<Pin>
  {
    if decls == [] then []
    else
      var d := decls[|decls| - 1];
      FreshBuses(decls[..|decls| - 1]) + [Bus(d.width, seq(d.width, _ => LOW), [])]
  }

  /** Every pin a chip of kind k declares, as its constructor allocates
    * them: inputs, then outputs, then internal pins. */
  function Declared(k: Kind): seq<Pin>
  {
    FreshBuses(Inputs(k)) + FreshBuses(Outputs(k)) + FreshBuses(Internals(k))
  }

  lemma FreshBusesNext(decls: seq<Decl>, k: nat)
    requires k < |decls|
    ensures FreshBuses(decls[..k + 1]) == FreshBuses(decls[..k]) + [Bus(decls[k].width, seq(decls[k].width, _ => LOW), [])]
  {
    assert decls[..k + 1][..k] == decls[..k];
  }

  lemma {:induction false} FreshBusesLength(decls: seq<Decl>)
    ensures |FreshBuses(decls)| == |decls|
    decreases |decls|
  {
    if decls != [] {
      FreshBusesLength(decls[..|decls| - 1]);
    }
  }

  lemma DeclaredJoin(ps: seq<Pin>, k: Kind)
    ensures ps + Declared(k) == ps + FreshBuses(Inputs(k)) + FreshBuses(Outputs(k)) + FreshBuses(Internals(k))
  {
    Associative(ps, FreshBuses(Inputs(k)), FreshBuses(Outputs(k)), FreshBuses(Internals(k)));
  }

  lemma Associative<T>(ps: seq<T>, a: seq<T>, b: seq<T>, c: seq<T>)
    ensures ps + (a + b + c) == ps + a + b + c
  {
  }

  /** Fresh buses appended after ps: ps stays as it was, and each new
    * bus fits its declaration. */
  lemma FreshBusesFit(ps: seq<Pin>, decls: seq<Decl>)
    ensures (ps + FreshBuses(decls))[..|ps|] == ps
    ensures FreshFrom(ps + FreshBuses(decls), |ps|)
    ensures Fits(ps + FreshBuses(decls), Span(|ps|, |decls|), decls)
  {
    var fs := FreshBuses(decls);
    var rs := ps + fs;
    FreshBusesFresh(decls);
    forall i | |ps| <= i < |rs|
      ensures IsFresh(rs[i])
    {
      assert rs[i] == fs[i - |ps|];
    }
    forall j | 0 <= j < |decls|
      ensures rs[|ps| + j].Bus? && rs[|ps| + j].width == decls[j].width
    {
      assert rs[|ps| + j] == fs[j];
    }
  }

  /** Each of FreshBuses(decls) is a new bus of its declaration's width. */
  lemma {:induction false} FreshBusesFresh(decls: seq<Decl>)
    ensures |FreshBuses(decls)| == |decls|
    ensures forall j | 0 <= j < |decls| :: IsFresh(FreshBuses(decls)[j]) && FreshBuses(decls)[j].width == decls[j].width
    decreases |decls|
  {
    if decls != [] {
      var n := |decls| - 1;
      FreshBusesFresh(decls[..n]);
      var fs := FreshBuses(decls);
      assert fs == FreshBuses(decls[..n]) + [fs[n]];
      forall j | 0 <= j < n
        ensures IsFresh(fs[j]) && fs[j].width == decls[j].width
      {
        assert fs[j] == FreshBuses(decls[..n])[j];
      }
    }
  }



  /** Fresh buses of widths 1 to 16 keep the arena well formed. */
  lemma {:induction false} FreshBusesWF(ps: seq<Pin>, decls: seq<Decl>)
    requires WF(ps) && forall j | 0 <= j < |decls| :: 1 <= decls[j].width <= 16
    ensures WF(ps + FreshBuses(decls))
    decreases |decls|
  {
    if decls != [] {
      var n := |decls| - 1;
      var b := Bus(decls[n].width, seq(decls[n].width, _ => LOW), []);
      FreshBusesWF(ps, decls[..n]);
      assert FreshBuses(decls) == FreshBuses(decls[..n]) + [b];
      assert ps + FreshBuses(decls) == (ps + FreshBuses(decls[..n])) + [b];
      GrowWF(ps + FreshBuses(decls[..n]), b);
    }
  }


  /** The pins a chip of any kind declares keep the arena well formed. */
  lemma DeclaredWF(ps: seq<Pin>, k: Kind)
    requires WF(ps)
    ensures WF(ps + Declared(k))
  {
    DeclsFit(k);
    var qs := ps + FreshBuses(Inputs(k));
    var ts := qs + FreshBuses(Outputs(k));
    FreshBusesWF(ps, Inputs(k));
    FreshBusesWF(qs, Outputs(k));
    FreshBusesWF(ts, Internals(k));
    DeclaredJoin(ps, k);
  }

  /** The pins a chip declares are new buses that read 0. */
  lemma DeclaredLow(ps: seq<Pin>, k: Kind)
    requires WF(ps)
    ensures WF(ps + Declared(k))
    ensures forall i | |ps| <= i < |ps| + |Declared(k)| :: (ps + Declared(k))[i].Bus? && Value(ps + Declared(k), i) == 0
  {
    var rs := ps + Declared(k);
    DeclaredWF(ps, k);
    DeclaredJoin(ps, k);
    var qs := ps + FreshBuses(Inputs(k));
    var ts := qs + FreshBuses(Outputs(k));
    FreshBusesFit(ps, Inputs(k));
    FreshBusesFit(qs, Outputs(k));
    FreshBusesFit(ts, Internals(k));
    assert rs == ts + FreshBuses(Internals(k));
    forall i | |ps| <= i < |rs|
      ensures rs[i].Bus? && Value(rs, i) == 0
    {
      if i < |qs| {
        assert rs[i] == qs[i];
      } else if i < |ts| {
        assert rs[i] == ts[i];
      }
      FreshValue(rs, i);
    }
  }


  /** One new bus per declaration, allocated in order. */
  method Allocate(arena: Arena, decls: seq<Decl>) returns (ids: seq<PinId>)
    requires arena.Valid() && forall j | 0 <= j < |decls| :: 1 <= decls[j].width <= 16
    modifies arena
    ensures arena.Valid() && ids == Span(|old(arena.pins)|, |decls|)
    ensures arena.pins == old(arena.pins) + FreshBuses(decls)
    ensures |arena.pins| == |old(arena.pins)| + |decls| && arena.pins[..|old(arena.pins)|] == old(arena.pins)
    ensures FreshFrom(arena.pins, |old(arena.pins)|)
    ensures Fits(arena.pins, ids, decls)
  {
    var n0 := |arena.pins|;
    ids := [];
    var k := 0;
    while k < |decls|
      invariant 0 <= k <= |decls| && arena.Valid()
      invariant |ids| == k && forall j | 0 <= j < k :: ids[j] == n0 + j
      invariant arena.pins == old(arena.pins) + FreshBuses(decls[..k])
    {
      var id := AllocateNext(arena, decls, k, old(arena.pins));
      ids := ids + [id];
      k := k + 1;
    }
    assert decls[..k] == decls;
    assert ids == Span(n0, |decls|);
    FreshBusesFit(old(arena.pins), decls);
    FreshBusesLength(decls);
  }

  /** The bus for declaration k, after those for the ones before it. */
  method AllocateNext(arena: Arena, decls: seq<Decl>, k: nat, ghost ps0: seq<Pin>) returns (id: PinId)
    requires arena.Valid() && k < |decls| && 1 <= decls[k].width <= 16
    requires arena.pins == ps0 + FreshBuses(decls[..k])
    modifies arena
    ensures arena.Valid() && id == |ps0| + k
    ensures arena.pins == ps0 + FreshBuses(decls[..k + 1])
  {
    FreshBusesLength(decls[..k]);
    id := arena.NewBus(decls[k].width);
    FreshBusesNext(decls, k);
  }


  /** One allocation: ps grew by one fresh bus per declaration, and ids
    * numbers them. */
  predicate AllocatedFrom(ps: seq<Pin>, rs: seq<Pin>, ids: seq<PinId>, decls: seq<Decl>)
  {
    |rs| == |ps| + |decls| && rs[..|ps|] == ps && FreshFrom(rs, |ps|) &&
    ids == Span(|ps|, |decls|) && Fits(rs, ids, decls)
  }

  /** Three allocations in a row: the pins they number are one span of
    * fresh buses reading 0, each fitting its declarations. */
  lemma AllocatedThree(ps0: seq<Pin>, ps1: seq<Pin>, ps2: seq<Pin>, ps3: seq<Pin>,
                       ins: seq<PinId>, outs: seq<PinId>, ints: seq<PinId>,
                       di: seq<Decl>, dout: seq<Decl>, dt: seq<Decl>)
    requires WF(ps3) && FreshFrom(ps1, |ps0|)
    requires AllocatedFrom(ps0, ps1, ins, di) && AllocatedFrom(ps1, ps2, outs, dout) && AllocatedFrom(ps2, ps3, ints, dt)
    ensures Fits(ps3, ins, di) && Fits(ps3, outs, dout) && Fits(ps3, ints, dt)
    ensures |ps3| >= |ps0| && ps3[..|ps0|] == ps0
    ensures ins + outs + ints == Span(|ps0|, |ps3| - |ps0|) && Unique(ins + outs + ints)
    ensures forall i | |ps0| <= i < |ps3| :: ps3[i].Bus? && Value(ps3, i) == 0
  {
    var n0 := |ps0|;
    FitsGrown(ps1, ps2, ins, di);
    FitsGrown(ps2, ps3, ins, di);
    FitsGrown(ps2, ps3, outs, dout);
    FreshGrown(ps1, ps2, n0);
    FreshGrown(ps2, ps3, n0);
    assert ps3[..n0] == ps2[..n0] == ps1[..n0];
    SpanJoin(n0, |ins|, |outs|);
    SpanJoin(n0, |ins| + |outs|, |ints|);
    forall i | n0 <= i < |ps3|
      ensures ps3[i].Bus? && Value(ps3, i) == 0
    {
      FreshValue(ps3, i);
    }
  }

  /** The input, output and internal pins of a chip, allocated in that
    * order: one new bus each, numbered consecutively. */
  method AllocateAll(arena: Arena, di: seq<Decl>, dout: seq<Decl>, dt: seq<Decl>)
    returns (ins: seq<PinId>, outs: seq<PinId>, ints: seq<PinId>)
    requires arena.Valid()
    requires forall j | 0 <= j < |di| :: 1 <= di[j].width <= 16
    requires forall j | 0 <= j < |dout| :: 1 <= dout[j].width <= 16
    requires forall j | 0 <= j < |dt| :: 1 <= dt[j].width <= 16
    modifies arena
    ensures arena.pins == old(arena.pins) + FreshBuses(di) + FreshBuses(dout) + FreshBuses(dt)
    ensures arena.Valid() && Fits(arena.pins, ins, di) && Fits(arena.pins, outs, dout) && Fits(arena.pins, ints, dt)
    ensures ins + outs + ints == Span(|old(arena.pins)|, |arena.pins| - |old(arena.pins)|)
    ensures Unique(ins + outs + ints)
  {
    var ps0 := arena.pins;
    ins := Allocate(arena, di);
    var ps1 := arena.pins;
    outs := Allocate(arena, dout);
    var ps2 := arena.pins;
    ints := Allocate(arena, dt);
    AllocatedThree(ps0, ps1, ps2, arena.pins, ins, outs, ints, di, dout, dt);
  }

  /** Every pin of a constructor's table is one of the pins it was built from. */
  lemma TabulateOwned(decls: seq<Decl>, ids: seq<PinId>)
    requires |ids| == |decls|
    ensures forall e | e in Tabulate(decls, ids) :: e.1 in ids
  {
    forall e | e in Tabulate(decls, ids)
      ensures e.1 in ids
    {
      TabulateNames(decls, ids, e.0, e.1);
    }
  }

  /** The pins a chip of kind k declares, allocated as `XChip::new()` does. */
  method AllocateKind(arena: Arena, k: Kind) returns (ins: seq<PinId>, outs: seq<PinId>, ints: seq<PinId>)
    requires arena.Valid()
    modifies arena
    ensures arena.pins == old(arena.pins) + Declared(k)
    ensures arena.Valid() && Fits(arena.pins, ins, Inputs(k)) && Fits(arena.pins, outs, Outputs(k))
    ensures Fits(arena.pins, ints, Internals(k))
    ensures ins + outs + ints == Span(|old(arena.pins)|, |Declared(k)|)
    ensures Unique(ins + outs + ints)
  {
    DeclsFit(k);
    ins, outs, ints := AllocateAll(arena, Inputs(k), Outputs(k), Internals(k));
    DeclaredJoin(old(arena.pins), k);
    assert |arena.pins| - |old(arena.pins)| == |Declared(k)|;
  }

  /** Pin p is the one ids holds for the declaration named name. */
  predicate Named(ids: seq<PinId>, decls: seq<Decl>, p: PinId, name: string)
  {
    exists j | 0 <= j < |ids| && j < |decls| :: ids[j] == p && decls[j].name == name
  }

  /** A builtin chip as a value: its kind, its pins, its latched state and
    * its memory. */
  datatype PartState = PartState(kind: Kind, inputs: seq<PinId>, outputs: seq<PinId>,
                                 internals: seq<PinId>, regs: Regs, mem: seq<Word>)

  /** The chip's pins are buses of the declared widths in ps. */
  predicate StateFits(ps: seq<Pin>, s: PartState)
  {
    Fits(ps, s.inputs, Inputs(s.kind)) && Fits(ps, s.outputs, Outputs(s.kind)) &&
    Fits(ps, s.internals, Internals(s.kind))
  }

  lemma StateFitsKept(ps: seq<Pin>, rs: seq<Pin>, s: PartState)
    requires StateFits(ps, s) && Kept(ps, rs)
    ensures StateFits(rs, s)
  {
    FitsKept(ps, rs, s.inputs, Inputs(s.kind));
    FitsKept(ps, rs, s.outputs, Outputs(s.kind));
    FitsKept(ps, rs, s.internals, Internals(s.kind));
  }

  /** The writes ws land on pins of the list ids, which fits ps. */
  lemma WritesInArena(ps: seq<Pin>, ids: seq<PinId>, decls: seq<Decl>, ws: seq<Write>)
    requires Fits(ps, ids, decls) && forall j | 0 <= j < |ws| :: ws[j].pin in ids
    ensures InArena(ps, ws)
  {
    forall j | 0 <= j < |ws|
      ensures ws[j].pin < |ps|
    {
      FitsBus(ps, ids, decls, ws[j].pin);
    }
  }

  /** The writes ws land on pins of two lists, both fitting ps. */
  lemma WritesInArena2(ps: seq<Pin>, ids: seq<PinId>, decls: seq<Decl>, jds: seq<PinId>, eds: seq<Decl>, ws: seq<Write>)
    requires Fits(ps, ids, decls) && Fits(ps, jds, eds)
    requires forall j | 0 <= j < |ws| :: ws[j].pin in ids || ws[j].pin in jds
    ensures InArena(ps, ws)
  {
    forall j | 0 <= j < |ws|
      ensures ws[j].pin < |ps|
    {
      if ws[j].pin in ids {
        FitsBus(ps, ids, decls, ws[j].pin);
      } else {
        FitsBus(ps, jds, eds, ws[j].pin);
      }
    }
  }

  /** What `eval` does to the arena and to the memory of chip s. */
  function EvalPart(ps: seq<Pin>, s: PartState): (r: (seq<Pin>, seq<Word>))
    requires WF(ps) && StateFits(ps, s)
    ensures Kept(ps, r.0) && WF(r.0) && |r.1| == |s.mem|
  {
    var ins := Samples(ps, s.inputs, Inputs(s.kind));
    var mem := EvalMemory(s.kind, ins, s.mem);
    var ws := EvalWrites(s.kind, ins, s.outputs, s.regs, mem);
    WritesInArena(ps, s.outputs, Outputs(s.kind), ws);
    (Apply(ps, ws), mem)
  }

  /** What `reset` does to the arena and to chip s. */
  function ResetPart(ps: seq<Pin>, s: PartState): (r: (seq<Pin>, PartState))
    requires WF(ps) && StateFits(ps, s)
    ensures Kept(ps, r.0) && WF(r.0) && StateFits(r.0, r.1)
    ensures r.1.kind == s.kind && r.1.inputs == s.inputs && r.1.outputs == s.outputs
    ensures r.1.internals == s.internals && |r.1.mem| == |s.mem|
  {
    var mem := ResetMemory(s.kind, s.mem);
    var ws := ResetWrites(s.kind, s.inputs, s.outputs, mem);
    WritesInArena2(ps, s.inputs, Inputs(s.kind), s.outputs, Outputs(s.kind), ws);
    var rs := Apply(ps, ws);
    StateFitsKept(ps, rs, s);
    (rs, s.(regs := ResetRegs(s.kind, s.regs), mem := mem))
  }

  /** One write: `pull(x, None)?` on a bus, which never fails, or
    * `set_bus_voltage(v)`. */
  method Write1(arena: Arena, w: Write)
    requires arena.Valid() && w.pin < |arena.pins| && arena.pins[w.pin].Bus?
    modifies arena
    ensures arena.Valid() && arena.pins == Step(old(arena.pins), w)
  {
    assert PinOk(arena.pins, arena.pins[w.pin]);
    match w {
      case PullTo(p, x) =>
        var r := arena.Pull(p, x, 0, {});
        assert r.Ok?;
      case SetTo(p, v) =>
        arena.SetBusVoltage(p, v, {});
    }
  }

  /** A `HashMap<String, pin>`, as a list of entries. */
  type PinTable = seq<(string, PinId)>

  predicate HasName(t: PinTable, name: string)
  {
    exists j | 0 <= j < |t| :: t[j].0 == name
  }

  /** `get(name)`: the pin of the first entry named name. */
  function Lookup(t: PinTable, name: string): (r: Option<PinId>)
    ensures r.Some? <==> HasName(t, name)
    ensures r.Some? ==> (name, r.value) in t
  {
    if t == [] then None
    else if t[0].0 == name then Some(t[0].1)
    else
      var r := Lookup(t[1..], name);
      assert HasName(t, name) ==> t[0].0 == name || HasName(t[1..], name);
      r
  }

  /** The table a chip's constructor fills: each declaration's name mapped
    * to the pin allocated for it. */
  function Tabulate(decls: seq<Decl>, ids: seq<PinId>): (t: PinTable)
    requires |ids| == |decls|
    ensures |t| == |decls|
  {
    if decls == [] then [] else [(decls[0].name, ids[0])] + Tabulate(decls[1..], ids[1..])
  }

  /** The table knows exactly the declared names, and each entry is the
    * pin of a declaration under that name. */
  lemma {:induction false} TabulateNames(decls: seq<Decl>, ids: seq<PinId>, name: string, p: PinId)
    requires |ids| == |decls|
    ensures HasName(Tabulate(decls, ids), name) <==> Declares(decls, name)
    ensures (name, p) in Tabulate(decls, ids) ==> p in ids && Named(ids, decls, p, name)
  {
    if decls != [] {
      var t := Tabulate(decls, ids);
      var rest := Tabulate(decls[1..], ids[1..]);
      TabulateNames(decls[1..], ids[1..], name, p);
      assert t == [(decls[0].name, ids[0])] + rest;
      assert t[0] == (decls[0].name, ids[0]);
      if HasName(t, name) && t[0].0 != name {
        var j :| 0 <= j < |t| && t[j].0 == name;
        assert rest[j - 1].0 == name;
      }
      if Declares(decls[1..], name) {
        var j :| 0 <= j < |decls[1..]| && decls[1..][j].name == name;
        assert decls[j + 1].name == name;
      }
      if HasName(rest, name) {
        var j :| 0 <= j < |rest| && rest[j].0 == name;
        assert t[j + 1].0 == name;
      }
      if (name, p) in rest {
        var j :| 0 <= j < |ids[1..]| && ids[1..][j] == p && decls[1..][j].name == name;
        assert ids[j + 1] == p && decls[j + 1].name == name;
      }
    }
  }

  /** The pins ids sampled in order: `voltage(None)` for a 1-bit pin,
    * `bus_voltage()` for a wider one. */
  method SampleAll(arena: Arena, ids: seq<PinId>, decls: seq<Decl>) returns (ins: seq<Word>)
    requires arena.Valid() && Fits(arena.pins, ids, decls)
    ensures ins == Samples(arena.pins, ids, decls)
  {
    // `voltage(None)` on a bus of at least one bit never fails.
    ins := [];
    var j := 0;
    while j < |ids|
      invariant 0 <= j <= |ids|
      invariant ins == Samples(arena.pins, ids, decls)[..j]
    {
      var v: Word;
      if decls[j].width == 1 {
        assert PinOk(arena.pins, arena.pins[ids[j]]);
        var r := VoltageOf(arena.pins, ids[j], 0);
        assert r.Ok?;
        v := r.value;
      } else {
        v := arena.BusVoltage(ids[j]);
      }
      ins := ins + [v];
      j := j + 1;
    }
  }

  class BuiltinChip {
    const kind: Kind
    /** The arena every pin of the simulation lives in. */
    const arena: Arena
    const memory: Memory
    /** The pins of the input, output and internal tables, in declaration order. */
    const inputs: seq<PinId>
    const outputs: seq<PinId>
    const internals: seq<PinId>
    /** The `input_pins`, `output_pins` and `internal_pins` maps. */
    const inputPins: PinTable
    const outputPins: PinTable
    const internalPins: PinTable
    var regs: Regs

    /** The declared pins are buses of the declared widths. */
    predicate PinsFit(ps: seq<Pin>)
    {
      Fits(ps, inputs, Inputs(kind)) && Fits(ps, outputs, Outputs(kind)) &&
      Fits(ps, internals, Internals(kind))
    }

    /** One pin per declaration. */
    predicate Sized()
    {
      |inputs| == |Inputs(kind)| && |outputs| == |Outputs(kind)| && |internals| == |Internals(kind)|
    }

    /** Each name map holds pins of its own list. */
    predicate Owned()
    {
      (forall e | e in inputPins :: e.1 in inputs) && (forall e | e in outputPins :: e.1 in outputs) &&
      (forall e | e in internalPins :: e.1 in internals)
    }

    /** Each name map holds the declared names and their pins: what the
      * constructor sets up, and, as all of it is constant, what stays. */
    predicate Tabled()
    {
      Sized() && inputPins == Tabulate(Inputs(kind), inputs) &&
      outputPins == Tabulate(Outputs(kind), outputs) && internalPins == Tabulate(Internals(kind), internals)
    }

    /** The chip as a value. */
    function State(): (s: PartState)
      reads this, memory
      ensures s.kind == kind && s.inputs == inputs && s.outputs == outputs && s.internals == internals
    {
      PartState(kind, inputs, outputs, internals, regs, memory.data)
    }

    predicate Valid()
      reads this, arena, memory
    {
      arena.Valid() && PinsFit(arena.pins) && Owned() && Unique(inputs + outputs + internals) &&
      memory.Valid() && memory.size == MemorySize(kind)
    }

    /** `XChip::new()`: fresh buses for the declared pins, a memory of
      * zeros of the chip's size, and cleared state. */
    constructor(kind: Kind, arena: Arena)
      requires arena.Valid()
      modifies arena
      ensures Valid() && Tabled() && this.kind == kind && this.arena == arena && regs == Cleared
      ensures fresh(memory) && memory.data == Zeros(MemorySize(kind))
      ensures inputs + outputs + internals == Span(|old(arena.pins)|, |Declared(kind)|)
      ensures arena.pins == old(arena.pins) + Declared(kind)
    {
      var ins, outs, ints := AllocateKind(arena, kind);
      var inTable, outTable, intTable := Tabulate(Inputs(kind), ins), Tabulate(Outputs(kind), outs), Tabulate(Internals(kind), ints);
      TabulateOwned(Inputs(kind), ins);
      TabulateOwned(Outputs(kind), outs);
      TabulateOwned(Internals(kind), ints);
      var mem := new Memory(MemorySize(kind));
      this.kind := kind;
      this.arena := arena;
      inputs := ins;
      outputs := outs;
      internals := ints;
      inputPins := inTable;
      outputPins := outTable;
      internalPins := intTable;
      memory := mem;
      regs := Cleared;
    }

    /** Every input pin sampled in declaration order; each 1-bit input
      * reads as a voltage. */
    method SampleInputs() returns (ins: seq<Word>)
      requires Valid()
      ensures ins == Samples(arena.pins, inputs, Inputs(kind)) && Readable(kind, ins)
    {
      ins := SampleAll(arena, inputs, Inputs(kind));
    }

    /** ws writes only to the chip's own pins. */
    predicate Own(ws: seq<Write>)
    {
      forall j | 0 <= j < |ws| :: ws[j].pin in inputs || ws[j].pin in outputs || ws[j].pin in internals
    }

    /** The writes ws on the arena, in order: each `pull(x, None)?` or
      * `set_bus_voltage(v)` call of an operation. A pull at bit 0 of a bus
      * never fails, so no `?` fires. */
    method Emit(ws: seq<Write>)
      requires Valid() && Own(ws)
      modifies arena
      ensures Valid() && InArena(old(arena.pins), ws) && arena.pins == Apply(old(arena.pins), ws)
    {
      forall j | 0 <= j < |ws|
        ensures ws[j].pin < |arena.pins| && arena.pins[ws[j].pin].Bus?
      {
        if ws[j].pin in inputs {
          FitsBus(arena.pins, inputs, Inputs(kind), ws[j].pin);
        } else if ws[j].pin in outputs {
          FitsBus(arena.pins, outputs, Outputs(kind), ws[j].pin);
        } else {
          FitsBus(arena.pins, internals, Internals(kind), ws[j].pin);
        }
      }
      var k := 0;
      while k < |ws|
        invariant 0 <= k <= |ws| && arena.Valid() && Kept(old(arena.pins), arena.pins)
        invariant forall j | 0 <= j < |ws| :: ws[j].pin < |arena.pins| && arena.pins[ws[j].pin].Bus?
        invariant InArena(arena.pins, ws[k..])
        invariant Apply(arena.pins, ws[k..]) == Apply(old(arena.pins), ws)
      {
        assert ws[k..][0] == ws[k] && ws[k..][1..] == ws[k + 1..];
        var before := arena.pins;
        Write1(arena, ws[k]);
        KeptTrans(old(arena.pins), before, arena.pins);
        forall j | 0 <= j < |ws|
          ensures arena.pins[ws[j].pin].Bus?
        {
          assert Same(before[ws[j].pin], arena.pins[ws[j].pin]);
        }
        k := k + 1;
      }
      FitsKept(old(arena.pins), arena.pins, inputs, Inputs(kind));
      FitsKept(old(arena.pins), arena.pins, outputs, Outputs(kind));
      FitsKept(old(arena.pins), arena.pins, internals, Internals(kind));
    }

    /** `eval`: sample the inputs, let a RAM8 or RAM16K store on load, then
      * write the outputs. */
    method Eval()
      requires Valid()
      modifies arena, memory
      ensures Valid() && regs == old(regs)
      ensures memory.data == EvalMemory(kind, Samples(old(arena.pins), inputs, Inputs(kind)), old(memory.data))
      ensures arena.pins == Apply(old(arena.pins),
        EvalWrites(kind, Samples(old(arena.pins), inputs, Inputs(kind)), outputs, regs, memory.data))
      ensures StateFits(old(arena.pins), old(State())) && (arena.pins, memory.data) == EvalPart(old(arena.pins), old(State()))
    {
      ghost var s0 := State();
      assert StateFits(arena.pins, s0);
      var ins := SampleInputs();
      StoreOnEval(ins);
      Emit(EvalWrites(kind, ins, outputs, regs, memory.data));
    }

    /** The store a RAM8 or RAM16K makes during `eval` when `load` is HIGH. */
    method StoreOnEval(ins: seq<Word>)
      requires Valid() && Readable(kind, ins)
      modifies memory
      ensures Valid() && memory.data == EvalMemory(kind, ins, old(memory.data))
    {
      if WritesOnEval(kind) {
        EvalStoresAsTick(kind, ins, memory.data);
        Store(ins);
      }
    }

    /** `tick`: sample the inputs, update the latched state and memory;
      * the DFF also pulls its internal pin. */
    method Tick()
      requires Valid() && Clocked(kind)
      modifies this, arena, memory
      ensures Valid()
      ensures regs == TickRegs(kind, Samples(old(arena.pins), inputs, Inputs(kind)), old(regs))
      ensures memory.data == TickMemory(kind, Samples(old(arena.pins), inputs, Inputs(kind)), old(memory.data))
      ensures arena.pins == Apply(old(arena.pins),
        TickWrites(kind, Samples(old(arena.pins), inputs, Inputs(kind)), internals))
    {
      var ins := SampleInputs();
      regs := TickRegs(kind, ins, regs);
      if RandomAccess(kind) {
        Store(ins);
      }
      Emit(TickWrites(kind, ins, internals));
    }

    /** `memory.set(address, in)` of a RAM or the screen, when `load` is HIGH. */
    method Store(ins: seq<Word>)
      requires Valid() && Readable(kind, ins) && RandomAccess(kind)
      modifies memory
      ensures Valid() && memory.data == TickMemory(kind, ins, old(memory.data))
    {
      RamInputs(kind);
      if ins[1] == HIGH {
        memory.Set(MaskedAddress(kind, ins[2]), ins[0]);
      }
    }

    /** `tock`: write the latched state to `out`. */
    method Tock()
      requires Valid() && Clocked(kind)
      modifies arena
      ensures Valid()
      ensures arena.pins == Apply(old(arena.pins), TockWrites(kind, outputs, regs, memory.data))
    {
      Emit(TockWrites(kind, outputs, regs, memory.data));
    }

    /** `reset`: clear the state and a RAM's or the screen's memory, then
      * write the reset values. */
    method Reset()
      requires Valid()
      modifies this, arena, memory
      ensures Valid()
      ensures regs == ResetRegs(kind, old(regs))
      ensures memory.data == ResetMemory(kind, old(memory.data))
      ensures arena.pins == Apply(old(arena.pins), ResetWrites(kind, inputs, outputs, memory.data))
      ensures StateFits(old(arena.pins), old(State())) && (arena.pins, State()) == ResetPart(old(arena.pins), old(State()))
    {
      regs := ResetRegs(kind, regs);
      if RandomAccess(kind) {
        memory.Reset();
      }
      Emit(ResetWrites(kind, inputs, outputs, memory.data));
    }

    /** `get_pin(name)`: the input map, then the output map; a DFF also
      * looks in its internal map and the keyboard only in its output map.
      * A miss is `Hardware` from the combinational chips' shared lookup and
      * `PinNotFound` from the others. */
    function GetPin(name: string): (r: Result<PinId>)
      requires Owned()
      ensures r.Ok? <==> ((!kind.KeyboardChip? && HasName(inputPins, name)) ||
        HasName(outputPins, name) || (kind.DffChip? && HasName(internalPins, name)))
      ensures r.Err? ==> r.fault == (if Combinational(kind) then Hardware else PinNotFound)
      ensures r.Ok? ==> r.value in inputs || r.value in outputs || r.value in internals
    {
      var i := if kind.KeyboardChip? then None else Lookup(inputPins, name);
      var o := Lookup(outputPins, name);
      var t := if kind.DffChip? then Lookup(internalPins, name) else None;
      if i.Some? then Ok(i.value)
      else if o.Some? then Ok(o.value)
      else if t.Some? then Ok(t.value)
      else Err(if Combinational(kind) then Hardware else PinNotFound)
    }

    /** The lookup answers exactly the declared names, with the pin
      * declared under the name, and the input pin before the output pin
      * of the same name. */
    lemma GetPinDeclared(name: string)
      requires Tabled() && Owned()
      ensures GetPin(name).Ok? <==> ((!kind.KeyboardChip? && Declares(Inputs(kind), name)) ||
        Declares(Outputs(kind), name) || (kind.DffChip? && Declares(Internals(kind), name)))
      ensures GetPin(name).Ok? && !kind.KeyboardChip? && Declares(Inputs(kind), name) ==>
        Named(inputs, Inputs(kind), GetPin(name).value, name)
      ensures GetPin(name).Ok? ==> (Named(inputs, Inputs(kind), GetPin(name).value, name) ||
        Named(outputs, Outputs(kind), GetPin(name).value, name) ||
        Named(internals, Internals(kind), GetPin(name).value, name))
    {
      var r := GetPin(name);
      var p := if r.Ok? then r.value else 0;
      TabulateNames(Inputs(kind), inputs, name, p);
      TabulateNames(Outputs(kind), outputs, name, p);
      TabulateNames(Internals(kind), internals, name, p);
    }

    /** `is_input_pin(name)` and `is_output_pin(name)`: `contains_key`. */
    predicate IsInputPin(name: string)
    {
      HasName(inputPins, name)
    }

    predicate IsOutputPin(name: string)
    {
      HasName(outputPins, name)
    }

    /** A name is an input (an output) pin exactly when the chip declares
      * an input (an output) under it. */
    lemma IsPinDeclared(name: string)
      requires Tabled()
      ensures IsInputPin(name) <==> Declares(Inputs(kind), name)
      ensures IsOutputPin(name) <==> Declares(Outputs(kind), name)
    {
      TabulateNames(Inputs(kind), inputs, name, 0);
      TabulateNames(Outputs(kind), outputs, name, 0);
    }

    // -------------------------------------------------------------------
    // Screen.
    // -------------------------------------------------------------------

    /** `get_pixel(x, y)`. */
    function PixelAt(x: nat, y: nat): (b: bool)
      requires Valid() && kind.ScreenChip?
      reads this, arena, memory
      ensures b == GetPixel(memory.data, x, y)
    {
      if !OnScreen(x, y) then false
      else And(Shr(memory.Get(PixelWord(x, y)), x % 16), 1) == 1
    }

    /** `set_pixel(x, y, value)`. */
    method SetPixelAt(x: nat, y: nat, value: bool)
      requires Valid() && kind.ScreenChip?
      modifies memory
      ensures Valid() && memory.data == SetPixel(old(memory.data), x, y, value)
    {
      if !OnScreen(x, y) {
        return;
      }
      var a := PixelWord(x, y);
      var w := memory.Get(a);
      if value {
        w := Or(w, Unit(x % 16));
      } else {
        w := And(w, Not(Unit(x % 16)));
      }
      memory.Set(a, w);
    }

    /** `clear_screen` (v = 0) and `fill_screen` (v = 0xFFFF): every screen
      * word set to v, one address after the other. */
    method FillWith(v: Word)
      requires Valid() && kind.ScreenChip?
      modifies memory
      ensures Valid() && memory.data == seq(SCREEN_SIZE, _ => v)
    {
      var a := 0;
      while a < SCREEN_SIZE
        invariant 0 <= a <= SCREEN_SIZE && memory.Valid() && memory.size == SCREEN_SIZE
        invariant forall i | 0 <= i < a :: memory.data[i] == v
      {
        memory.Set(a, v);
        a := a + 1;
      }
    }

    method ClearScreen()
      requires Valid() && kind.ScreenChip?
      modifies memory
      ensures Valid() && forall x: nat, y: nat :: !GetPixel(memory.data, x, y)
    {
      FillWith(0);
      forall x: nat, y: nat
        ensures !GetPixel(memory.data, x, y)
      {
        BlankAndFull(x, y);
      }
    }

    method FillScreen()
      requires Valid() && kind.ScreenChip?
      modifies memory
      ensures Valid() && forall x: nat, y: nat :: GetPixel(memory.data, x, y) <==> OnScreen(x, y)
    {
      FillWith(0xFFFF);
      forall x: nat, y: nat
        ensures GetPixel(memory.data, x, y) <==> OnScreen(x, y)
      {
        BlankAndFull(x, y);
      }
    }

    // -------------------------------------------------------------------
    // Keyboard.
    // -------------------------------------------------------------------

    /** `set_key(key)`: the key becomes the current key and is written to
      * `out` at once. */
    method SetKey(key: Word)
      requires Valid() && kind.KeyboardChip?
      modifies this, arena
      ensures Valid() && regs == old(regs).(bits := key)
      ensures arena.pins == SetV(old(arena.pins), outputs[0], key, {})
    {
      regs := regs.(bits := key);
      Emit([SetTo(outputs[0], key)]);
    }

    /** `clear_key`: no key pressed. */
    method ClearKey()
      requires Valid() && kind.KeyboardChip?
      modifies this, arena
      ensures Valid() && regs == old(regs).(bits := 0) && !IsKeyPressed()
      ensures arena.pins == SetV(old(arena.pins), outputs[0], 0, {})
    {
      SetKey(0);
    }

    /** `type_char(c)`: the key code of c becomes the current key. */
    method TypeChar(c: char)
      requires Valid() && kind.KeyboardChip?
      modifies this, arena
      ensures Valid() && regs == old(regs).(bits := KeyCode(c))
      ensures arena.pins == SetV(old(arena.pins), outputs[0], KeyCode(c), {})
    {
      SetKey(KeyCode(c));
    }

    /** `is_key_pressed`: some key other than 0 is current. */
    predicate IsKeyPressed()
      reads this
    {
      regs.bits != 0
    }

    // -------------------------------------------------------------------
    // ROM.
    // -------------------------------------------------------------------

    /** `load_program(program)`: each word stored at its index, the
      * indices from 32768 on skipped. */
    method LoadProgram(program: seq<Word>)
      requires Valid() && kind.Rom32kChip?
      modifies memory
      ensures Valid() && memory.data == Loaded(old(memory.data), program)
    {
      var i := 0;
      while i < |program|
        invariant 0 <= i <= |program| && memory.Valid() && memory.size == 32768
        invariant memory.data == Loaded(old(memory.data), program[..i])
      {
        if i < 32768 {
          memory.Set(i, program[i]);
        }
        i := i + 1;
      }
      assert program[..|program|] == program;
    }

    /** `set_memory(address, value)`: one word, ignored from 32768 on. */
    method SetMemory(address: nat, value: Word)
      requires Valid() && kind.Rom32kChip?
      modifies memory
      ensures Valid() && memory.data == Written(old(memory.data), address, value)
      ensures address < 32768 ==> Read(memory.data, address) == value
    {
      if address < 32768 {
        memory.Set(address, value);
      }
    }
  }
}
