// The chip builder: a structural chip description turned into a running
// chip. Builtin parts come from a registry keyed by name; a composite
// chip gets buses for its declared pins, a 1-bit internal bus for every
// other name its wires mention, and one builtin sub-chip per part.
module Builder {
  import opened Signal
  import opened Errors
  import opened PinRanges
  import opened Wiring
  import opened Builtins
  import opened BuiltinChips
  import opened Chips

  // ---------------------------------------------------------------------
  // The structural description the HDL parser produces.
  // ---------------------------------------------------------------------

  /** A declared pin; no width means one bit. */
  datatype PinDecl = PinDecl(name: string, width: Option<nat>)

  /** One side of a part's connection: a named pin, perhaps with a bit
    * range, or a literal constant. */
  datatype WireSide = PinSide(pinName: string, range: Option<PinRange>) | ConstSide(high: bool)

  datatype HdlWire = HdlWire(from: WireSide, to: WireSide)

  /** A part: the chip it instantiates and its connection list. */
  datatype Part = Part(name: string, connections: seq<HdlWire>)

  datatype HdlChip = HdlChip(name: string, inputs: seq<PinDecl>, outputs: seq<PinDecl>, parts: seq<Part>,
                             isBuiltin: bool, clockedPins: seq<string>)

  /** What `build_chip` hands back: a builtin chip or a composite one. */
  datatype Built = Primitive(part: BuiltinChip) | Composite(chip: Chip)

  // ---------------------------------------------------------------------
  // The builtin registry.
  // ---------------------------------------------------------------------

  /** The names `register_builtins` inserts. */
  const Registered: set<string> := {
    "Nand", "Not", "And", "Or", "Xor", "Mux", "DMux", "DMux4Way", "DMux8Way",
    "Not16", "And16", "Or16", "Mux16", "Mux4Way16", "Mux8Way16", "Add16", "Inc16",
    "HalfAdder", "FullAdder", "ALU", "DFF", "Bit", "Register", "PC",
    "RAM8", "RAM64", "RAM512", "RAM4K", "RAM16K", "ROM32K", "Screen", "Keyboard"
  }

  /** The registry lookup: the kind of chip each factory makes. */
  function KindOf(name: string): Option<Kind>
  {
    match name
    case "Nand" => Some(Unshown("Nand"))
    case "Not" => Some(NotChip)
    case "And" => Some(Unshown("And"))
    case "Or" => Some(OrChip)
    case "Xor" => Some(Unshown("Xor"))
    case "Mux" => Some(MuxChip)
    case "DMux" => Some(DMuxChip)
    case "DMux4Way" => Some(DMux4WayChip)
    case "DMux8Way" => Some(DMux8WayChip)
    case "Not16" => Some(Not16Chip)
    case "And16" => Some(Unshown("And16"))
    case "Or16" => Some(Or16Chip)
    case "Mux16" => Some(Mux16Chip)
    case "Mux4Way16" => Some(Mux4Way16Chip)
    case "Mux8Way16" => Some(Mux8Way16Chip)
    case "Add16" => Some(Add16Chip)
    case "Inc16" => Some(Inc16Chip)
    case "HalfAdder" => Some(HalfAdderChip)
    case "FullAdder" => Some(FullAdderChip)
    case "ALU" => Some(AluChip)
    case "DFF" => Some(DffChip)
    case "Bit" => Some(BitChip)
    case "Register" => Some(RegisterChip)
    case "PC" => Some(PcChip)
    case "RAM8" => Some(Ram8Chip)
    case "RAM64" => Some(Ram64Chip)
    case "RAM512" => Some(Ram512Chip)
    case "RAM4K" => Some(Unshown("RAM4K"))
    case "RAM16K" => Some(Ram16kChip)
    case "ROM32K" => Some(Rom32kChip)
    case "Screen" => Some(ScreenChip)
    case "Keyboard" => Some(KeyboardChip)
    case _ => None
  }

  /** The registry answers exactly the registered names, and the chip a
    * factory makes reports the name it was registered under. */
  lemma RegistryKeys(name: string)
    ensures KindOf(name).Some? <==> name in Registered
  {
  }

  lemma RegistryNames(name: string)
    ensures KindOf(name).Some? ==> NameOf(KindOf(name).value) == name
  {
  }

  /** Every modelled chip kind is in the registry under its own name. */
  lemma RegistryRoundTrip(k: Kind)
    requires !k.Unshown? || k.chipName in {"Nand", "And", "Xor", "And16", "RAM4K"}
    ensures NameOf(k) in Registered && KindOf(NameOf(k)) == Some(k)
  {
  }

  /** `build_builtin_chip(name)`: the registered factory's chip, or a
    * hardware error ("Unknown builtin chip") for any other name. */
  method BuildBuiltinChip(name: string, arena: Arena) returns (r: Result<BuiltinChip>)
    requires arena.Valid()
    modifies arena
    ensures arena.Valid() && Grows(old(arena.pins), arena.pins)
    ensures r.Ok? <==> name in Registered
    ensures r.Ok? ==> Some(r.value.kind) == KindOf(name) && NameOf(r.value.kind) == name
    ensures r.Ok? ==> fresh(r.value) && fresh(r.value.memory) && r.value.arena == arena && r.value.Valid()
    ensures r.Ok? ==> arena.pins == old(arena.pins) + Declared(r.value.kind)
    ensures r.Err? ==> r.fault == Hardware && arena.pins == old(arena.pins)
  {
    RegistryKeys(name);
    RegistryNames(name);
    var k := KindOf(name);
    if k.None? {
      return Err(Hardware);
    }
    var before := arena.pins;
    var part := new BuiltinChip(k.value, arena);
    assert arena.pins[..|before|] == before;
    PrefixGrows(before, arena.pins);
    r := Ok(part);
  }

  lemma PrefixGrows(ps: seq<Pin>, rs: seq<Pin>)
    requires |ps| <= |rs| && rs[..|ps|] == ps
    ensures Grows(ps, rs)
  {
    forall i | 0 <= i < |ps|
      ensures rs[i] == ps[i]
    {
      assert rs[..|ps|][i] == rs[i];
    }
  }

  // ---------------------------------------------------------------------
  // Declared pins.
  // ---------------------------------------------------------------------

  /** `create_pin_from_decl`: the declared width, or one bit. */
  function PinWidth(d: PinDecl): nat
  {
    if d.width.Some? then d.width.value else 1
  }

  /** `Bus::new` asserts 1 <= width <= 16. */
  predicate WidthsOk(decls: seq<PinDecl>)
  {
    forall d | d in decls :: 1 <= PinWidth(d) <= 16
  }

  /** `create_pin_from_decl`: a fresh LOW bus of the declared width, or of
    * width 1 when none is given. */
  method CreatePin(arena: Arena, d: PinDecl) returns (id: PinId)
    requires arena.Valid() && 1 <= PinWidth(d) <= 16
    modifies arena
    ensures arena.Valid() && id == |old(arena.pins)|
    ensures arena.pins == old(arena.pins) + [Bus(PinWidth(d), seq(PinWidth(d), _ => LOW), [])]
    ensures d.width.None? ==> arena.pins[id].width == 1
    ensures d.width.Some? ==> arena.pins[id].width == d.width.value
    ensures Value(arena.pins, id) == 0
  {
    id := arena.NewBus(PinWidth(d));
  }

  /** The names of a table's entries. */
  function TableNames(t: PinTable): set<string>
  {
    set e | e in t :: e.0
  }

  function DeclNames(decls: seq<PinDecl>): set<string>
  {
    set d | d in decls :: d.name
  }

  /** Entry e is the pin of a declaration of its name, a bus of the
    * width that declaration gives. */
  predicate DeclaredAs(ps: seq<Pin>, decls: seq<PinDecl>, e: (string, PinId))
  {
    exists d | d in decls :: d.name == e.0 && e.1 < |ps| && ps[e.1].Bus? && ps[e.1].width == PinWidth(d)
  }

  lemma DeclaredGrows(ps: seq<Pin>, rs: seq<Pin>, decls: seq<PinDecl>, e: (string, PinId))
    requires DeclaredAs(ps, decls, e) && Grows(ps, rs)
    ensures DeclaredAs(rs, decls, e)
  {
  }

  /** `insert` adds the name to the table's names, and every entry after
    * it is an old entry or the new one. */
  lemma {:induction false} InsertNames(t: PinTable, name: string, id: PinId)
    ensures TableNames(Insert(t, name, id)) == TableNames(t) + {name}
    ensures forall e | e in Insert(t, name, id) :: e in t || e == (name, id)
  {
    if t == [] {
    } else if t[0].0 == name {
      assert t == [t[0]] + t[1..];
      NamesCons(t[0], t[1..]);
      NamesCons((name, id), t[1..]);
    } else {
      InsertNames(t[1..], name, id);
      assert t == [t[0]] + t[1..];
      NamesCons(t[0], t[1..]);
      NamesCons(t[0], Insert(t[1..], name, id));
    }
  }

  lemma NamesCons(x: (string, PinId), t: PinTable)
    ensures TableNames([x] + t) == {x.0} + TableNames(t)
  {
    forall n | n in TableNames([x] + t)
      ensures n in {x.0} + TableNames(t)
    {
      var e :| e in [x] + t && e.0 == n;
    }
  }

  lemma HasNameIn(t: PinTable, name: string)
    ensures HasName(t, name) <==> name in TableNames(t)
  {
    if name in TableNames(t) {
      var e :| e in t && e.0 == name;
      var j :| 0 <= j < |t| && t[j] == e;
    }
  }

  /** After the first k declarations: table t (grown from t0) names t0's
    * names and the declared ones, and each new entry is a declared pin. */
  predicate DeclaredUpTo(t0: PinTable, t: PinTable, ps: seq<Pin>, decls: seq<PinDecl>, k: nat)
    requires k <= |decls|
  {
    TableNames(t) == TableNames(t0) + DeclNames(decls[..k]) &&
    forall e | e in t :: e in t0 || DeclaredAs(ps, decls, e)
  }

  /** Inserting declaration k's fresh bus extends the declared prefix. */
  lemma DeclaredNext(t0: PinTable, t: PinTable, ps: seq<Pin>, rs: seq<Pin>, decls: seq<PinDecl>, k: nat, id: PinId)
    requires k < |decls| && DeclaredUpTo(t0, t, ps, decls, k) && Grows(ps, rs)
    requires id < |rs| && rs[id].Bus? && rs[id].width == PinWidth(decls[k])
    ensures DeclaredUpTo(t0, Insert(t, decls[k].name, id), rs, decls, k + 1)
  {
    forall e | e in t && DeclaredAs(ps, decls, e)
      ensures DeclaredAs(rs, decls, e)
    {
      DeclaredGrows(ps, rs, decls, e);
    }
    InsertNames(t, decls[k].name, id);
    assert DeclaredAs(rs, decls, (decls[k].name, id));
    assert decls[..k + 1] == decls[..k] + [decls[k]];
  }

  /** The input-pin loop of `build_chip`: a bus per declaration, each
    * inserted under its name. */
  method DeclareInputs(c: Chip, decls: seq<PinDecl>)
    requires c.Valid() && WidthsOk(decls)
    modifies c`inputPins, c.arena
    ensures c.Valid() && Grows(old(c.arena.pins), c.arena.pins)
    ensures TableNames(c.inputPins) == TableNames(old(c.inputPins)) + DeclNames(decls)
    ensures forall e | e in c.inputPins :: e in old(c.inputPins) || DeclaredAs(c.arena.pins, decls, e)
  {
    var k := 0;
    while k < |decls|
      invariant 0 <= k <= |decls| && c.Valid() && Grows(old(c.arena.pins), c.arena.pins)
      invariant DeclaredUpTo(old(c.inputPins), c.inputPins, c.arena.pins, decls, k)
    {
      var before := c.arena.pins;
      var id := CreatePin(c.arena, decls[k]);
      c.Regrown(before);
      DeclaredNext(old(c.inputPins), c.inputPins, before, c.arena.pins, decls, k, id);
      c.AddInputPin(decls[k].name, id);
      k := k + 1;
    }
    assert decls[..k] == decls;
  }

  /** The output-pin loop of `build_chip`. */
  method DeclareOutputs(c: Chip, decls: seq<PinDecl>)
    requires c.Valid() && WidthsOk(decls)
    modifies c`outputPins, c.arena
    ensures c.Valid() && Grows(old(c.arena.pins), c.arena.pins)
    ensures TableNames(c.outputPins) == TableNames(old(c.outputPins)) + DeclNames(decls)
    ensures forall e | e in c.outputPins :: e in old(c.outputPins) || DeclaredAs(c.arena.pins, decls, e)
  {
    var k := 0;
    while k < |decls|
      invariant 0 <= k <= |decls| && c.Valid() && Grows(old(c.arena.pins), c.arena.pins)
      invariant DeclaredUpTo(old(c.outputPins), c.outputPins, c.arena.pins, decls, k)
    {
      var before := c.arena.pins;
      var id := CreatePin(c.arena, decls[k]);
      c.Regrown(before);
      DeclaredNext(old(c.outputPins), c.outputPins, before, c.arena.pins, decls, k, id);
      c.AddOutputPin(decls[k].name, id);
      k := k + 1;
    }
    assert decls[..k] == decls;
  }

  // ---------------------------------------------------------------------
  // Internal pins.
  // ---------------------------------------------------------------------

  /** Both sides of every wire, in order. */
  function WireSides(ws: seq<HdlWire>): (r: seq<WireSide>)
    ensures |r| == 2 * |ws|
  {
    if ws == [] then [] else WireSides(ws[..|ws| - 1]) + [ws[|ws| - 1].from, ws[|ws| - 1].to]
  }

  /** The sides of every part's wires, part by part. */
  function PartSides(parts: seq<Part>): seq<WireSide>
  {
    if parts == [] then [] else PartSides(parts[..|parts| - 1]) + WireSides(parts[|parts| - 1].connections)
  }

  /** Some side of sides is the pin called name. */
  predicate Mentions(sides: seq<WireSide>, name: string)
  {
    exists k | 0 <= k < |sides| :: sides[k].PinSide? && sides[k].pinName == name
  }

  /** `collect_internal_pins` on one side: a pin name that is not a host
    * input or output, not a constant and not yet seen is added. */
  function Gathered(names: seq<string>, io: set<string>, s: WireSide): seq<string>
  {
    if s.PinSide? && s.pinName !in io && !IsConstantPin(s.pinName) && s.pinName !in names
    then names + [s.pinName] else names
  }

  /** The internal pin names the first pass of `build_parts` collects
    * from sides, in the order it first meets them. */
  function Collected(io: set<string>, sides: seq<WireSide>): seq<string>
  {
    if sides == [] then [] else Gathered(Collected(io, sides[..|sides| - 1]), io, sides[|sides| - 1])
  }

  predicate NoRepeats(names: seq<string>)
  {
    forall i, j | 0 <= i < j < |names| :: names[i] != names[j]
  }

  /** The collected names are exactly the mentioned pin names that are
    * neither host pins nor constants, each once. */
  lemma {:induction false} CollectedNames(io: set<string>, sides: seq<WireSide>, name: string)
    ensures name in Collected(io, sides) <==> Mentions(sides, name) && name !in io && !IsConstantPin(name)
    ensures NoRepeats(Collected(io, sides))
  {
    if sides != [] {
      var n := |sides| - 1;
      CollectedNames(io, sides[..n], name);
      if Mentions(sides, name) && !Mentions(sides[..n], name) {
        assert sides[n].PinSide? && sides[n].pinName == name;
      }
      if Mentions(sides[..n], name) {
        var k :| 0 <= k < n && sides[..n][k].PinSide? && sides[..n][k].pinName == name;
        assert sides[k] == sides[..n][k];
      }
    }
  }

  /** The sides of one part's wires are among all the parts' sides. */
  lemma {:induction false} PartSidesHold(parts: seq<Part>, i: nat, name: string)
    requires i < |parts| && Mentions(WireSides(parts[i].connections), name)
    ensures Mentions(PartSides(parts), name)
  {
    var n := |parts| - 1;
    var own := WireSides(parts[n].connections);
    if i < n {
      assert parts[..n][i] == parts[i];
      PartSidesHold(parts[..n], i, name);
      var k :| 0 <= k < |PartSides(parts[..n])| && PartSides(parts[..n])[k].PinSide? && PartSides(parts[..n])[k].pinName == name;
      assert PartSides(parts)[k] == PartSides(parts[..n])[k];
    } else {
      var k :| 0 <= k < |own| && own[k].PinSide? && own[k].pinName == name;
      assert PartSides(parts)[|PartSides(parts[..n])| + k] == own[k];
    }
  }

  /** The names of a table's entries, in entry order. */
  function Keys(t: PinTable): (r: seq<string>)
    ensures |r| == |t|
  {
    seq(|t|, j requires 0 <= j < |t| => t[j].0)
  }

  /** A 1-bit LOW bus that drives nothing, as `Bus::new(name, 1)` makes. */
  function FreshBuses(n: nat): seq<Pin>
  {
    seq(n, _ => Bus(1, seq(1, _ => LOW), []))
  }

  /** The host's input and output pin names. */
  function HostNames(c: Chip): set<string>
    reads c`inputPins, c`outputPins
  {
    TableNames(c.inputPins) + TableNames(c.outputPins)
  }

  /** The pass state: table holds the collected names, each with a fresh
    * 1-bit bus appended to ps0. */
  predicate Gathering(ps0: seq<Pin>, ps: seq<Pin>, table: PinTable, io: set<string>, sides: seq<WireSide>)
  {
    Keys(table) == Collected(io, sides) && ps == ps0 + FreshBuses(|table|) &&
    forall j | 0 <= j < |table| :: table[j].1 == |ps0| + j
  }

  /** The arena is well formed and holds the host's table pins: all the
    * host chip needs while its wires are being collected or made. */
  predicate Holding(c: Chip)
    reads c`inputPins, c`outputPins, c`internalPins, c.arena
  {
    c.arena.Valid() && c.TablesHeld(c.arena.pins)
  }

  lemma TablesGrow(c: Chip, ps: seq<Pin>, rs: seq<Pin>)
    requires c.TablesHeld(ps) && Grows(ps, rs)
    ensures c.TablesHeld(rs)
  {
    HoldsGrows(ps, rs, c.inputPins);
    HoldsGrows(ps, rs, c.outputPins);
    HoldsGrows(ps, rs, c.internalPins);
  }

  /** A table finds a name exactly when the name is among its keys. */
  lemma KeysHasName(t: PinTable, name: string)
    ensures HasName(t, name) <==> name in Keys(t)
  {
    if name in Keys(t) {
      var j :| 0 <= j < |t| && Keys(t)[j] == name;
      assert t[j].0 == name;
    }
    if HasName(t, name) {
      var j :| 0 <= j < |t| && t[j].0 == name;
      assert Keys(t)[j] == name;
    }
  }

  /** A side the pass skips leaves its state as it was. */
  lemma GatherSkip(ps0: seq<Pin>, ps: seq<Pin>, table: PinTable, io: set<string>, done: seq<WireSide>, s: WireSide)
    requires Gathering(ps0, ps, table, io, done) && Gathered(Keys(table), io, s) == Keys(table)
    ensures Gathering(ps0, ps, table, io, done + [s])
  {
    assert (done + [s])[..|done|] == done;
  }

  /** A side the pass adds gets the fresh bus appended to the arena. */
  lemma GatherAdd(ps0: seq<Pin>, ps: seq<Pin>, table: PinTable, io: set<string>, done: seq<WireSide>, s: WireSide)
    requires Gathering(ps0, ps, table, io, done) && s.PinSide?
    requires Gathered(Keys(table), io, s) == Keys(table) + [s.pinName]
    ensures Gathering(ps0, ps + [Bus(1, seq(1, _ => LOW), [])], table + [(s.pinName, |ps|)], io, done + [s])
  {
    assert (done + [s])[..|done|] == done;
    var table' := table + [(s.pinName, |ps|)];
    assert Keys(table') == Keys(table) + [s.pinName];
    assert FreshBuses(|table'|) == FreshBuses(|table|) + [Bus(1, seq(1, _ => LOW), [])];
  }

  /** One side of the first pass. */
  method Gather(c: Chip, table: PinTable, s: WireSide, ghost ps0: seq<Pin>, ghost done: seq<WireSide>)
    returns (table': PinTable)
    requires Holding(c) && Gathering(ps0, c.arena.pins, table, HostNames(c), done)
    modifies c.arena
    ensures Holding(c) && Grows(old(c.arena.pins), c.arena.pins)
    ensures Gathering(ps0, c.arena.pins, table', HostNames(c), done + [s])
  {
    table' := table;
    if s.PinSide? {
      HasNameIn(c.inputPins, s.pinName);
      HasNameIn(c.outputPins, s.pinName);
      KeysHasName(table, s.pinName);
      if !c.IsInputPin(s.pinName) && !c.IsOutputPin(s.pinName) && !IsConstantPin(s.pinName) && !HasName(table, s.pinName) {
        var before := c.arena.pins;
        GatherAdd(ps0, before, table, HostNames(c), done, s);
        var id := c.arena.NewBus(1);
        TablesGrow(c, before, c.arena.pins);
        table' := table + [(s.pinName, id)];
        return;
      }
    }
    GatherSkip(ps0, c.arena.pins, table, HostNames(c), done, s);
  }

  /** The first pass over one part's wires, both sides of each. */
  method CollectPart(c: Chip, table: PinTable, ws: seq<HdlWire>, ghost ps0: seq<Pin>, ghost done: seq<WireSide>)
    returns (table': PinTable)
    requires Holding(c) && Gathering(ps0, c.arena.pins, table, HostNames(c), done)
    modifies c.arena
    ensures Holding(c) && Grows(old(c.arena.pins), c.arena.pins)
    ensures Gathering(ps0, c.arena.pins, table', HostNames(c), done + WireSides(ws))
  {
    table' := table;
    var j := 0;
    assert done + WireSides(ws[..j]) == done by {
      assert ws[..j] == [];
    }
    while j < |ws|
      invariant 0 <= j <= |ws| && Holding(c) && Grows(old(c.arena.pins), c.arena.pins)
      invariant Gathering(ps0, c.arena.pins, table', HostNames(c), done + WireSides(ws[..j]))
    {
      ghost var sofar := done + WireSides(ws[..j]);
      var before := c.arena.pins;
      table' := Gather(c, table', ws[j].from, ps0, sofar);
      var mid := c.arena.pins;
      table' := Gather(c, table', ws[j].to, ps0, sofar + [ws[j].from]);
      GrowsTrans(before, mid, c.arena.pins);
      GrowsTrans(old(c.arena.pins), before, c.arena.pins);
      assert ws[..j + 1][..j] == ws[..j];
      assert sofar + [ws[j].from] + [ws[j].to] == done + WireSides(ws[..j + 1]);
      j := j + 1;
    }
    assert ws[..j] == ws;
  }

  /** The first pass of `build_parts`: every side of every wire of every
    * part, collected in order. */
  method CollectInternalPins(c: Chip, parts: seq<Part>) returns (table: PinTable)
    requires Holding(c)
    modifies c.arena
    ensures Holding(c) && Grows(old(c.arena.pins), c.arena.pins)
    ensures Gathering(old(c.arena.pins), c.arena.pins, table, HostNames(c), PartSides(parts))
  {
    table := [];
    var i := 0;
    while i < |parts|
      invariant 0 <= i <= |parts| && Holding(c) && Grows(old(c.arena.pins), c.arena.pins)
      invariant Gathering(old(c.arena.pins), c.arena.pins, table, HostNames(c), PartSides(parts[..i]))
    {
      var before := c.arena.pins;
      table := CollectPart(c, table, parts[i].connections, old(c.arena.pins), PartSides(parts[..i]));
      GrowsTrans(old(c.arena.pins), before, c.arena.pins);
      assert parts[..i + 1][..i] == parts[..i];
      i := i + 1;
    }
    assert parts[..i] == parts;
  }

  /** `insert` of each entry in turn. */
  function InsertAll(t: PinTable, es: PinTable): PinTable
    decreases |es|
  {
    if es == [] then t else InsertAll(Insert(t, es[0].0, es[0].1), es[1..])
  }

  /** `insert` of a name the table lacks appends it. */
  lemma {:induction false} InsertNew(t: PinTable, name: string, id: PinId)
    requires name !in Keys(t)
    ensures Insert(t, name, id) == t + [(name, id)]
  {
    if t != [] {
      assert Keys(t)[0] == t[0].0;
      assert forall j | 0 <= j < |t| - 1 :: Keys(t[1..])[j] == Keys(t)[j + 1];
      InsertNew(t[1..], name, id);
      assert t == [t[0]] + t[1..];
    }
  }

  /** Inserting distinct new names one by one appends them in order. */
  lemma {:induction false} InsertAllNew(t: PinTable, es: PinTable)
    requires NoRepeats(Keys(es)) && forall j | 0 <= j < |es| :: es[j].0 !in Keys(t)
    ensures InsertAll(t, es) == t + es
    decreases |es|
  {
    if es != [] {
      assert Keys(es)[0] == es[0].0;
      InsertNew(t, es[0].0, es[0].1);
      var t' := t + [(es[0].0, es[0].1)];
      forall j | 0 <= j < |es| - 1
        ensures es[1..][j].0 !in Keys(t')
      {
        assert Keys(es)[j + 1] == es[j + 1].0;
        assert Keys(t') == Keys(t) + [es[0].0];
      }
      forall i, j | 0 <= i < j < |es| - 1
        ensures Keys(es[1..])[i] != Keys(es[1..])[j]
      {
        assert Keys(es)[i + 1] == Keys(es[1..])[i];
        assert Keys(es)[j + 1] == Keys(es[1..])[j];
      }
      InsertAllNew(t', es[1..]);
      assert t' + es[1..] == t + es;
    }
  }

  /** The second loop of `build_parts`: each collected pin added as an
    * internal pin. */
  method AddInternalPins(c: Chip, table: PinTable)
    requires c.Valid() && Holds(c.arena.pins, table)
    modifies c`internalPins
    ensures c.Valid() && c.internalPins == InsertAll(old(c.internalPins), table)
  {
    var k := 0;
    while k < |table|
      invariant 0 <= k <= |table| && c.Valid()
      invariant InsertAll(c.internalPins, table[k..]) == InsertAll(old(c.internalPins), table)
    {
      assert table[k] in table;
      assert table[k..][1..] == table[k + 1..];
      c.AddInternalPin(table[k].0, table[k].1);
      k := k + 1;
    }
  }

  /** `insert` of each entry in turn knows the old names and the new ones. */
  lemma {:induction false} InsertAllNames(t: PinTable, es: PinTable)
    ensures TableNames(InsertAll(t, es)) == TableNames(t) + TableNames(es)
    decreases |es|
  {
    if es != [] {
      InsertNames(t, es[0].0, es[0].1);
      InsertAllNames(Insert(t, es[0].0, es[0].1), es[1..]);
      assert es == [es[0]] + es[1..];
      assert TableNames(es) == {es[0].0} + TableNames(es[1..]);
    }
  }

  /** The collected table holds a fresh 1-bit LOW bus for each name. */
  lemma GatheringBuses(ps0: seq<Pin>, ps: seq<Pin>, table: PinTable, io: set<string>, sides: seq<WireSide>)
    requires Gathering(ps0, ps, table, io, sides)
    ensures forall e | e in table :: e.1 < |ps| && ps[e.1] == Bus(1, seq(1, _ => LOW), [])
  {
    forall e | e in table
      ensures e.1 < |ps| && ps[e.1] == Bus(1, seq(1, _ => LOW), [])
    {
      var j :| 0 <= j < |table| && table[j] == e;
      assert ps[e.1] == FreshBuses(|table|)[j];
    }
  }

  // ---------------------------------------------------------------------
  // Connecting a part's wires.
  // ---------------------------------------------------------------------

  /** `resolve_wire_side` on the arena ps: a constant name or a literal
    * makes a new `ConstantPin`, any other name is looked up on the host
    * chip (the range is ignored). */
  function SideResolved(c: Chip, ps: seq<Pin>, s: WireSide): (r: Result<(seq<Pin>, PinId)>)
    requires WF(ps) && c.TablesHeld(ps)
    reads c`inputPins, c`outputPins, c`internalPins
    ensures r.Ok? ==> WF(r.value.0) && Grows(ps, r.value.0) && c.TablesHeld(r.value.0) && r.value.1 < |r.value.0|
    ensures r.Err? ==> r.fault == Hardware
  {
    var name := if s.PinSide? then s.pinName else if s.high then "true" else "false";
    if s.ConstSide? || IsConstantPin(name) then
      var p := Constant(ConstantLevel(name).value);
      GrowWF(ps, p);
      HoldsGrows(ps, ps + [p], c.inputPins);
      HoldsGrows(ps, ps + [p], c.outputPins);
      HoldsGrows(ps, ps + [p], c.internalPins);
      Ok((ps + [p], |ps|))
    else
      match c.GetPin(name)
      case Ok(id) => c.GetPinBus(ps, name); Ok((ps, id))
      case Err(f) => Err(f)
  }

  /** A side the host can resolve. */
  predicate Resolvable(c: Chip, s: WireSide)
    reads c`inputPins, c`outputPins, c`internalPins
  {
    s.ConstSide? || IsConstantPin(s.pinName) || c.GetPin(s.pinName).Ok?
  }

  /** A side resolves exactly when it is a constant or a host pin name; a
    * constant becomes a new constant pin of its level, and a name finds
    * the host pin without growing the arena. */
  lemma SideResolution(c: Chip, ps: seq<Pin>, s: WireSide)
    requires WF(ps) && c.TablesHeld(ps)
    ensures SideResolved(c, ps, s).Ok? <==> Resolvable(c, s)
    ensures s.ConstSide? ==> SideResolved(c, ps, s).value.0 == ps + [Constant(if s.high then HIGH else LOW)]
    ensures s.PinSide? && IsConstantPin(s.pinName) ==>
      SideResolved(c, ps, s).value.0[|ps|] == Constant(if s.pinName in {"true", "1"} then HIGH else LOW)
    ensures s.PinSide? && !IsConstantPin(s.pinName) && Resolvable(c, s) ==>
      SideResolved(c, ps, s).value == (ps, c.GetPin(s.pinName).value)
  {
  }

  /** One wire of `connect_part`: both sides resolved, then the from pin
    * connected to the to pin. */
  function WireMade(c: Chip, ps: seq<Pin>, w: HdlWire): (r: Result<seq<Pin>>)
    requires WF(ps) && c.TablesHeld(ps)
    reads c`inputPins, c`outputPins, c`internalPins
    ensures r.Ok? ==> WF(r.value) && Grows(ps, r.value) && c.TablesHeld(r.value)
    ensures r.Err? ==> r.fault == Hardware
  {
    match SideResolved(c, ps, w.from)
    case Err(f) => Err(f)
    case Ok((ps1, f)) =>
      match SideResolved(c, ps1, w.to)
      case Err(e) => Err(e)
      case Ok((ps2, t)) =>
        ConnectedGrows(ps2, f, t, {});
        GrowsTrans(ps, ps1, ps2);
        GrowsTrans(ps, ps2, Connected(ps2, f, t, {}));
        HoldsGrows(ps2, Connected(ps2, f, t, {}), c.inputPins);
        HoldsGrows(ps2, Connected(ps2, f, t, {}), c.outputPins);
        HoldsGrows(ps2, Connected(ps2, f, t, {}), c.internalPins);
        Ok(Connected(ps2, f, t, {}))
  }

  /** A wire whose sides resolve to f on ps1 and then t on ps2 connects f to t. */
  lemma WireMadeFrom(c: Chip, ps: seq<Pin>, w: HdlWire, ps1: seq<Pin>, f: PinId, ps2: seq<Pin>, t: PinId)
    requires WF(ps) && c.TablesHeld(ps)
    requires SideResolved(c, ps, w.from) == Ok((ps1, f))
    requires SideResolved(c, ps1, w.to) == Ok((ps2, t))
    ensures WireMade(c, ps, w) == Ok(Connected(ps2, f, t, {}))
  {
  }

  /** A wire one of whose sides does not resolve is not made. */
  lemma WireMadeFails(c: Chip, ps: seq<Pin>, w: HdlWire, ps1: seq<Pin>, f: PinId)
    requires WF(ps) && c.TablesHeld(ps)
    requires SideResolved(c, ps, w.from).Err? ||
      (SideResolved(c, ps, w.from) == Ok((ps1, f)) && SideResolved(c, ps1, w.to).Err?)
    ensures WireMade(c, ps, w).Err?
  {
  }

  /** `connect_part`: the wires in order; the first side that does not
    * resolve stops it. The part itself takes no part in this. */
  function PartConnected(c: Chip, ps: seq<Pin>, ws: seq<HdlWire>): (r: Result<seq<Pin>>)
    requires WF(ps) && c.TablesHeld(ps)
    reads c`inputPins, c`outputPins, c`internalPins
    ensures r.Ok? ==> WF(r.value) && Grows(ps, r.value) && c.TablesHeld(r.value)
    ensures r.Err? ==> r.fault == Hardware
    decreases |ws|
  {
    if ws == [] then Ok(ps)
    else
      match WireMade(c, ps, ws[0])
      case Err(f) => Err(f)
      case Ok(qs) =>
        var r := PartConnected(c, qs, ws[1..]);
        if r.Ok? then GrowsTrans(ps, qs, r.value); r else r
  }

  /** Every side of sides resolves on the host. */
  predicate AllResolvable(c: Chip, sides: seq<WireSide>)
    reads c`inputPins, c`outputPins, c`internalPins
  {
    forall k | 0 <= k < |sides| :: Resolvable(c, sides[k])
  }

  /** `connect_part` succeeds exactly when every side of every wire
    * resolves on the host. */
  lemma {:induction false} PartConnectedOk(c: Chip, ps: seq<Pin>, ws: seq<HdlWire>)
    requires WF(ps) && c.TablesHeld(ps)
    ensures PartConnected(c, ps, ws).Ok? <==> AllResolvable(c, WireSides(ws))
    decreases |ws|
  {
    if ws != [] {
      var w := ws[0];
      var rest := WireSides(ws[1..]);
      WireSidesFront(ws);
      assert AllResolvable(c, WireSides(ws)) <==> Resolvable(c, w.from) && Resolvable(c, w.to) && AllResolvable(c, rest) by {
        assert WireSides(ws)[0] == w.from && WireSides(ws)[1] == w.to;
        assert forall k | 0 <= k < |rest| :: WireSides(ws)[k + 2] == rest[k];
      }
      SideResolution(c, ps, w.from);
      if SideResolved(c, ps, w.from).Ok? {
        var ps1 := SideResolved(c, ps, w.from).value.0;
        SideResolution(c, ps1, w.to);
        if SideResolved(c, ps1, w.to).Ok? {
          PartConnectedOk(c, WireMade(c, ps, w).value, ws[1..]);
        }
      }
    }
  }

  /** The sides of a wire list are its first wire's sides, then the rest's. */
  lemma {:induction false} WireSidesFront(ws: seq<HdlWire>)
    requires ws != []
    ensures WireSides(ws) == [ws[0].from, ws[0].to] + WireSides(ws[1..])
  {
    var n := |ws| - 1;
    if n > 0 {
      WireSidesFront(ws[..n]);
      assert ws[..n][1..] == ws[1..][..n - 1];
      assert ws[..n][0] == ws[0];
    }
  }

  /** One part of the second pass of `build_parts`, on the arena: the
    * registry's factory allocates the pins its chip declares, then the
    * part's wires are connected on the host. A name the registry does not
    * know is a hardware error. */
  function PartWired(c: Chip, ps: seq<Pin>, p: Part): (r: Result<seq<Pin>>)
    requires WF(ps) && c.TablesHeld(ps)
    reads c`inputPins, c`outputPins, c`internalPins
    ensures r.Ok? ==> WF(r.value) && Grows(ps, r.value) && c.TablesHeld(r.value)
    ensures r.Ok? ==> p.name in Registered
    ensures r.Err? ==> r.fault == Hardware
  {
    match KindOf(p.name)
    case None => Err(Hardware)
    case Some(k) =>
      DeclaredWF(ps, k);
      var qs := ps + Declared(k);
      PrefixGrows(ps, qs);
      TablesGrow(c, ps, qs);
      var r := PartConnected(c, qs, p.connections);
      if r.Ok? then GrowsTrans(ps, qs, r.value); r else r
  }

  /** The second pass of `build_parts` on the arena: the parts in order;
    * the first that fails stops it. */
  function PartsWired(c: Chip, ps: seq<Pin>, parts: seq<Part>): (r: Result<seq<Pin>>)
    requires WF(ps) && c.TablesHeld(ps)
    reads c`inputPins, c`outputPins, c`internalPins
    ensures r.Ok? ==> WF(r.value) && Grows(ps, r.value) && c.TablesHeld(r.value)
    ensures r.Err? ==> r.fault == Hardware
    decreases |parts|
  {
    if parts == [] then Ok(ps)
    else
      match PartWired(c, ps, parts[0])
      case Err(f) => Err(f)
      case Ok(qs) =>
        var r := PartsWired(c, qs, parts[1..]);
        if r.Ok? then GrowsTrans(ps, qs, r.value); r else r
  }

  /** A part whose wires all resolve on the host is wired exactly when the
    * registry knows its name. */
  lemma PartWiredOk(c: Chip, ps: seq<Pin>, p: Part)
    requires WF(ps) && c.TablesHeld(ps) && AllResolvable(c, WireSides(p.connections))
    ensures PartWired(c, ps, p).Ok? <==> p.name in Registered
  {
    RegistryKeys(p.name);
    if KindOf(p.name).Some? {
      var k := KindOf(p.name).value;
      DeclaredWF(ps, k);
      var qs := ps + Declared(k);
      PrefixGrows(ps, qs);
      TablesGrow(c, ps, qs);
      PartConnectedOk(c, qs, p.connections);
    }
  }

  /** A part of kind k whose wires, once its pins are allocated, connect
    * to rs is wired to rs. */
  lemma PartWiredFrom(c: Chip, ps: seq<Pin>, p: Part, k: Kind, qs: seq<Pin>, rs: seq<Pin>)
    requires WF(ps) && c.TablesHeld(ps) && KindOf(p.name) == Some(k) && qs == ps + Declared(k)
    requires WF(qs) && c.TablesHeld(qs) && PartConnected(c, qs, p.connections) == Ok(rs)
    ensures PartWired(c, ps, p) == Ok(rs)
  {
  }

  /** Part i wired from ps to qs: the rest of the pass goes on from qs. */
  lemma PartsWiredNext(c: Chip, ps: seq<Pin>, qs: seq<Pin>, parts: seq<Part>, i: nat)
    requires WF(ps) && c.TablesHeld(ps) && i < |parts| && PartWired(c, ps, parts[i]) == Ok(qs)
    ensures WF(qs) && c.TablesHeld(qs)
    ensures PartsWired(c, ps, parts[i..]) == PartsWired(c, qs, parts[i + 1..])
  {
    assert parts[i..][0] == parts[i] && parts[i..][1..] == parts[i + 1..];
  }

  /** A second pass whose every part's wires resolve succeeds exactly when
    * the registry knows every part's name. */
  lemma {:induction false} PartsWiredOk(c: Chip, ps: seq<Pin>, parts: seq<Part>)
    requires WF(ps) && c.TablesHeld(ps)
    requires forall i | 0 <= i < |parts| :: AllResolvable(c, WireSides(parts[i].connections))
    ensures PartsWired(c, ps, parts).Ok? <==> forall i | 0 <= i < |parts| :: parts[i].name in Registered
    decreases |parts|
  {
    if parts != [] {
      PartWiredOk(c, ps, parts[0]);
      RegisteredFront(parts);
      var w := PartWired(c, ps, parts[0]);
      if w.Ok? {
        ResolvableRest(c, parts);
        PartsWiredOk(c, w.value, parts[1..]);
      }
    }
  }

  /** Every part is registered exactly when the first is and every other. */
  lemma RegisteredFront(parts: seq<Part>)
    requires parts != []
    ensures (forall i | 0 <= i < |parts| :: parts[i].name in Registered) <==>
      parts[0].name in Registered && forall i | 0 <= i < |parts[1..]| :: parts[1..][i].name in Registered
  {
    assert forall i | 0 <= i < |parts[1..]| :: parts[1..][i] == parts[i + 1];
  }

  lemma ResolvableRest(c: Chip, parts: seq<Part>)
    requires parts != [] && forall i | 0 <= i < |parts| :: AllResolvable(c, WireSides(parts[i].connections))
    ensures forall i | 0 <= i < |parts[1..]| :: AllResolvable(c, WireSides(parts[1..][i].connections))
  {
    forall i | 0 <= i < |parts[1..]|
      ensures AllResolvable(c, WireSides(parts[1..][i].connections))
    {
      assert parts[1..][i] == parts[i + 1];
    }
  }

  /** Both sides of one wire resolved, the from side first. */
  method ResolveSides(c: Chip, w: HdlWire) returns (r: Result<(PinId, PinId)>)
    requires Holding(c)
    modifies c.arena
    ensures Holding(c) && Grows(old(c.arena.pins), c.arena.pins)
    ensures r.Ok? ==> r.value.0 < |c.arena.pins| && r.value.1 < |c.arena.pins|
    ensures r.Ok? ==> WireMade(c, old(c.arena.pins), w) == Ok(Connected(c.arena.pins, r.value.0, r.value.1, {}))
    ensures r.Err? ==> WireMade(c, old(c.arena.pins), w).Err? && r.fault == Hardware
  {
    var f := ResolveWireSide(c, w.from);
    if f.Err? {
      WireMadeFails(c, old(c.arena.pins), w, [], 0);
      return Err(f.fault);
    }
    var mid := c.arena.pins;
    var t := ResolveWireSide(c, w.to);
    if t.Err? {
      WireMadeFails(c, old(c.arena.pins), w, mid, f.value);
      return Err(t.fault);
    }
    WireMadeFrom(c, old(c.arena.pins), w, mid, f.value, c.arena.pins, t.value);
    r := Ok((f.value, t.value));
  }

  /** One wire of `connect_part`: `from.connect(to)` on the resolved sides. */
  method ConnectWire(c: Chip, w: HdlWire) returns (r: Result<()>)
    requires Holding(c)
    modifies c.arena
    ensures Holding(c) && Grows(old(c.arena.pins), c.arena.pins)
    ensures r.Ok? ==> WireMade(c, old(c.arena.pins), w) == Ok(c.arena.pins)
    ensures r.Err? ==> WireMade(c, old(c.arena.pins), w).Err? && r.fault == Hardware
  {
    var sides := ResolveSides(c, w);
    if sides.Err? {
      return Err(sides.fault);
    }
    ghost var mid := c.arena.pins;
    ConnectSides(c, sides.value.0, sides.value.1);
    GrowsTrans(old(c.arena.pins), mid, c.arena.pins);
    r := Ok(());
  }

  /** `from.connect(to)` on the host's arena, once both sides are resolved. */
  method ConnectSides(c: Chip, f: PinId, t: PinId)
    requires Holding(c) && f < |c.arena.pins| && t < |c.arena.pins|
    modifies c.arena
    ensures Holding(c) && c.arena.pins == Connected(old(c.arena.pins), f, t, {})
    ensures Grows(old(c.arena.pins), c.arena.pins)
  {
    ghost var ps := c.arena.pins;
    c.arena.Connect(f, t, {});
    ConnectedGrows(ps, f, t, {});
    TablesGrow(c, ps, c.arena.pins);
  }

  /** Wire k of `connect_part`, with goal the outcome of the whole list. */
  method ConnectNext(c: Chip, ws: seq<HdlWire>, k: nat, ghost goal: Result<seq<Pin>>) returns (e: Result<()>)
    requires Holding(c) && k < |ws| && PartConnected(c, c.arena.pins, ws[k..]) == goal
    modifies c.arena
    ensures Holding(c) && Grows(old(c.arena.pins), c.arena.pins)
    ensures e.Ok? ==> PartConnected(c, c.arena.pins, ws[k + 1..]) == goal
    ensures e.Err? ==> goal.Err? && e.fault == Hardware
  {
    ghost var ps := c.arena.pins;
    e := ConnectWire(c, ws[k]);
    PartConnectedNext(c, ps, ws, k);
  }

  /** Wire k made on ps, the rest of `connect_part` goes on from there. */
  lemma PartConnectedNext(c: Chip, ps: seq<Pin>, ws: seq<HdlWire>, k: nat)
    requires WF(ps) && c.TablesHeld(ps) && k < |ws|
    ensures WireMade(c, ps, ws[k]).Err? ==> PartConnected(c, ps, ws[k..]).Err?
    ensures WireMade(c, ps, ws[k]).Ok? ==>
      PartConnected(c, ps, ws[k..]) == PartConnected(c, WireMade(c, ps, ws[k]).value, ws[k + 1..])
  {
    assert ws[k..][0] == ws[k] && ws[k..][1..] == ws[k + 1..];
  }

  /** `connect_part(chip, sub_chip, connections)`. */
  method ConnectPart(c: Chip, ws: seq<HdlWire>) returns (r: Result<()>)
    requires Holding(c)
    modifies c.arena
    ensures Holding(c) && Grows(old(c.arena.pins), c.arena.pins)
    ensures r.Ok? <==> PartConnected(c, old(c.arena.pins), ws).Ok?
    ensures r.Ok? ==> c.arena.pins == PartConnected(c, old(c.arena.pins), ws).value
    ensures r.Err? ==> r.fault == Hardware
  {
    ghost var goal := PartConnected(c, c.arena.pins, ws);
    r := Ok(());
    var k := 0;
    while k < |ws| && r.Ok?
      invariant 0 <= k <= |ws| && Holding(c) && Grows(old(c.arena.pins), c.arena.pins)
      invariant r.Ok? ==> PartConnected(c, c.arena.pins, ws[k..]) == goal
      invariant r.Err? ==> goal.Err? && r.fault == Hardware
    {
      var before := c.arena.pins;
      r := ConnectNext(c, ws, k, goal);
      GrowsTrans(old(c.arena.pins), before, c.arena.pins);
      k := k + 1;
    }
    if r.Ok? {
      assert ws[k..] == [];
    }
  }

  /** `resolve_wire_side(chip, side)`. */
  method ResolveWireSide(c: Chip, s: WireSide) returns (r: Result<PinId>)
    requires Holding(c)
    modifies c.arena
    ensures Holding(c)
    ensures r.Ok? <==> SideResolved(c, old(c.arena.pins), s).Ok?
    ensures r.Ok? ==> (c.arena.pins, r.value) == SideResolved(c, old(c.arena.pins), s).value
    ensures r.Err? ==> r.fault == Hardware && c.arena.pins == old(c.arena.pins)
  {
    var name := if s.PinSide? then s.pinName else if s.high then "true" else "false";
    if s.ConstSide? || IsConstantPin(name) {
      var before := c.arena.pins;
      r := c.arena.NewConstant(name);
      TablesGrow(c, before, c.arena.pins);
    } else {
      r := c.GetPin(name);
    }
  }

  // ---------------------------------------------------------------------
  // Building parts and chips.
  // ---------------------------------------------------------------------

  /** After the first pass every side of every part resolves on the host:
    * a name that is no host input or output and no constant was
    * collected as an internal pin. */
  lemma PartsResolvable(c: Chip, parts: seq<Part>, table: PinTable)
    requires Keys(table) == Collected(HostNames(c), PartSides(parts))
    requires TableNames(table) <= TableNames(c.internalPins)
    ensures forall i | 0 <= i < |parts| :: AllResolvable(c, WireSides(parts[i].connections))
  {
    forall i, k | 0 <= i < |parts| && 0 <= k < |WireSides(parts[i].connections)|
      ensures Resolvable(c, WireSides(parts[i].connections)[k])
    {
      var side := WireSides(parts[i].connections)[k];
      if side.PinSide? && !IsConstantPin(side.pinName) {
        var name := side.pinName;
        PartSidesHold(parts, i, name);
        CollectedNames(HostNames(c), PartSides(parts), name);
        HasNameIn(c.inputPins, name);
        HasNameIn(c.outputPins, name);
        HasNameIn(c.internalPins, name);
        KeysHasName(table, name);
        HasNameIn(table, name);
      }
    }
  }

  /** The registry's answer for each part name, in order. */
  function Registry(parts: seq<Part>): (r: seq<Option<Kind>>)
    ensures |r| == |parts|
  {
    seq(|parts|, i requires 0 <= i < |parts| => KindOf(parts[i].name))
  }

  /** The kind of each sub-chip, in order. */
  function Kinds(cs: seq<BuiltinChip>): (r: seq<Option<Kind>>)
    ensures |r| == |cs|
  {
    seq(|cs|, i requires 0 <= i < |cs| => Some(cs[i].kind))
  }

  lemma KindsNext(cs: seq<BuiltinChip>, c: BuiltinChip)
    ensures Kinds(cs + [c]) == Kinds(cs) + [Some(c.kind)]
  {
  }

  lemma RegistryNext(parts: seq<Part>, i: nat)
    requires i < |parts|
    ensures Registry(parts[..i + 1]) == Registry(parts[..i]) + [KindOf(parts[i].name)]
  {
  }

  /** One part of the second pass of `build_parts`: the part built from the
    * registry, its wires connected on the host, and the part added. */
  method InstantiatePart(c: Chip, p: Part) returns (r: Result<()>)
    requires c.Valid() && AllResolvable(c, WireSides(p.connections))
    modifies c`parts, c`Repr, c.arena
    ensures c.Valid() && Grows(old(c.arena.pins), c.arena.pins)
    ensures r.Ok? <==> p.name in Registered
    ensures r.Ok? ==> |c.parts| == |old(c.parts)| + 1 && c.parts[..|old(c.parts)|] == old(c.parts)
    ensures r.Ok? ==> Kinds(c.parts) == Kinds(old(c.parts)) + [KindOf(p.name)]
    ensures r.Ok? ==> PartWired(c, old(c.arena.pins), p) == Ok(c.arena.pins)
    ensures r.Err? ==> r.fault == Hardware && c.parts == old(c.parts)
  {
    var built := BuildConnected(c, p);
    if built.Err? {
      return Err(built.fault);
    }
    KindsNext(c.parts, built.value);
    c.AddSubChip(built.value);
    r := Ok(());
  }

  /** `connect_part` on wires whose sides all resolve: it cannot fail. */
  method ConnectResolved(c: Chip, ws: seq<HdlWire>)
    requires Holding(c) && AllResolvable(c, WireSides(ws))
    modifies c.arena
    ensures Holding(c) && Grows(old(c.arena.pins), c.arena.pins)
    ensures PartConnected(c, old(c.arena.pins), ws) == Ok(c.arena.pins)
  {
    PartConnectedOk(c, c.arena.pins, ws);
    var e := ConnectPart(c, ws);
    assert e.Ok?;
  }

  /** The part of `p` built from the registry, with its wires connected on
    * the host: what `add_sub_chip` then receives. */
  method BuildConnected(c: Chip, p: Part) returns (r: Result<BuiltinChip>)
    requires c.Valid() && AllResolvable(c, WireSides(p.connections))
    modifies c.arena
    ensures c.Valid() && Grows(old(c.arena.pins), c.arena.pins)
    ensures r.Ok? <==> p.name in Registered
    ensures r.Ok? ==> Some(r.value.kind) == KindOf(p.name) && fresh(r.value) && fresh(r.value.memory)
    ensures r.Ok? ==> r.value.arena == c.arena && r.value.Valid()
    ensures r.Ok? ==> PartWired(c, old(c.arena.pins), p) == Ok(c.arena.pins)
    ensures r.Err? ==> r.fault == Hardware
  {
    var ps0 := c.arena.pins;
    r := BuildBuiltinChip(p.name, c.arena);
    if r.Err? {
      return;
    }
    c.Regrown(ps0);
    var ps1 := c.arena.pins;
    ConnectBuilt(c, p, r.value, ps0);
    GrowsTrans(ps0, ps1, c.arena.pins);
  }

  /** The wires of p connected once its chip, of kind part.kind, has
    * allocated its pins after those of ps0. */
  method ConnectBuilt(c: Chip, p: Part, part: BuiltinChip, ghost ps0: seq<Pin>)
    requires c.Valid() && AllResolvable(c, WireSides(p.connections))
    requires KindOf(p.name) == Some(part.kind) && part.PinsFit(c.arena.pins)
    requires WF(ps0) && c.TablesHeld(ps0) && c.arena.pins == ps0 + Declared(part.kind)
    modifies c.arena
    ensures c.Valid() && Grows(old(c.arena.pins), c.arena.pins) && part.PinsFit(c.arena.pins)
    ensures PartWired(c, ps0, p) == Ok(c.arena.pins)
  {
    ghost var ps1 := c.arena.pins;
    ConnectResolved(c, p.connections);
    PartWiredFrom(c, ps0, p, part.kind, ps1, c.arena.pins);
    c.Regrown(ps1);
    PinsFitGrows(part, ps1, c.arena.pins);
  }

  /** How far the second pass of `build_parts` has come: i parts built
    * and added after the sub-chips first, all registered, and the arena
    * on its way from start to goal. */
  ghost predicate Progress(c: Chip, parts: seq<Part>, i: nat, first: seq<BuiltinChip>, start: seq<Pin>,
                           goal: Result<seq<Pin>>)
    reads c, c.arena
  {
    i <= |parts| && WF(c.arena.pins) && c.TablesHeld(c.arena.pins) && Grows(start, c.arena.pins) &&
    |c.parts| == |first| + i && c.parts[..|first|] == first &&
    (forall j | 0 <= j < i :: parts[j].name in Registered) &&
    Kinds(c.parts) == Kinds(first) + Registry(parts[..i]) &&
    PartsWired(c, c.arena.pins, parts[i..]) == goal
  }

  /** Part i of the second pass built, wired and added. */
  method InstantiateNext(c: Chip, parts: seq<Part>, i: nat, ghost first: seq<BuiltinChip>, ghost start: seq<Pin>,
                         ghost goal: Result<seq<Pin>>) returns (r: Result<()>)
    requires c.Valid() && i < |parts| && AllResolvable(c, WireSides(parts[i].connections))
    requires Progress(c, parts, i, first, start, goal)
    modifies c`parts, c`Repr, c.arena
    ensures c.Valid() && Grows(start, c.arena.pins)
    ensures r.Ok? <==> parts[i].name in Registered
    ensures r.Ok? ==> Progress(c, parts, i + 1, first, start, goal)
    ensures r.Err? ==> r.fault == Hardware && c.parts == old(c.parts)
  {
    var before := c.arena.pins;
    ghost var was := c.parts;
    r := InstantiatePart(c, parts[i]);
    GrowsTrans(start, before, c.arena.pins);
    if r.Ok? {
      PartsWiredNext(c, before, c.arena.pins, parts, i);
      PrefixStep(was, c.parts, first);
      RegistryNext(parts, i);
      KindsStep(Kinds(first), Registry(parts[..i]), KindOf(parts[i].name));
    }
  }

  /** One more element after a list that kept its first n0. */
  lemma PrefixStep<T>(was: seq<T>, now: seq<T>, first: seq<T>)
    requires |first| <= |was| && was[..|first|] == first
    requires |now| == |was| + 1 && now[..|was|] == was
    ensures now[..|first|] == first
  {
    assert now[..|first|] == now[..|was|][..|first|];
  }

  lemma KindsStep(a: seq<Option<Kind>>, b: seq<Option<Kind>>, x: Option<Kind>)
    ensures (a + b) + [x] == a + (b + [x])
  {
  }

  /** The second pass of `build_parts`: the parts in order; the first name
    * the registry does not know stops the build with an error. */
  method InstantiateParts(c: Chip, parts: seq<Part>) returns (r: Result<()>)
    requires c.Valid() && forall i | 0 <= i < |parts| :: AllResolvable(c, WireSides(parts[i].connections))
    modifies c`parts, c`Repr, c.arena
    ensures c.Valid() && Grows(old(c.arena.pins), c.arena.pins)
    ensures r.Ok? <==> forall i | 0 <= i < |parts| :: parts[i].name in Registered
    ensures r.Ok? ==> |c.parts| == |old(c.parts)| + |parts| && c.parts[..|old(c.parts)|] == old(c.parts)
    ensures r.Ok? ==> Kinds(c.parts) == Kinds(old(c.parts)) + Registry(parts)
    ensures r.Ok? ==> PartsWired(c, old(c.arena.pins), parts) == Ok(c.arena.pins)
    ensures r.Err? ==> r.fault == Hardware
    ensures r.Err? ==> exists i | 0 <= i < |parts| ::
      && parts[i].name !in Registered
      && |c.parts| == |old(c.parts)| + i
      && forall j | 0 <= j < i :: parts[j].name in Registered
  {
    ghost var first := c.parts;
    ghost var start := c.arena.pins;
    ghost var goal := PartsWired(c, c.arena.pins, parts);
    var i := 0;
    assert parts[..0] == [] && parts[0..] == parts && c.parts[..|first|] == first;
    while i < |parts|
      invariant 0 <= i <= |parts| && c.Valid() && Progress(c, parts, i, first, start, goal)
    {
      r := InstantiateNext(c, parts, i, first, start, goal);
      if r.Err? {
        assert parts[i].name !in Registered && |c.parts| == |first| + i;
        return;
      }
      i := i + 1;
    }
    assert parts[..i] == parts && parts[i..] == [];
    r := Ok(());
  }


  /** The first two loops of `build_parts`: the internal pins collected,
    * then added; afterwards every side of every part resolves. */
  method AddCollectedPins(c: Chip, parts: seq<Part>) returns (ghost collected: PinTable)
    requires c.Valid()
    modifies c`internalPins, c.arena
    ensures c.Valid() && Grows(old(c.arena.pins), c.arena.pins)
    ensures Keys(collected) == Collected(HostNames(c), PartSides(parts))
    ensures forall e | e in collected :: e.1 < |c.arena.pins| && c.arena.pins[e.1].Bus? && c.arena.pins[e.1].width == 1
    ensures c.internalPins == InsertAll(old(c.internalPins), collected)
    ensures forall i | 0 <= i < |parts| :: AllResolvable(c, WireSides(parts[i].connections))
  {
    var ps0 := c.arena.pins;
    var table := CollectInternalPins(c, parts);
    collected := table;
    c.Regrown(ps0);
    GatheringBuses(ps0, c.arena.pins, table, HostNames(c), PartSides(parts));
    AddInternalPins(c, table);
    InsertAllNames(old(c.internalPins), table);
    PartsResolvable(c, parts, table);
  }

  /** `build_parts`: the internal pins collected and added, then the parts
    * built and wired. collected is the table of the first pass, gathered
    * the arena once its pins are added. */
  method BuildParts(c: Chip, parts: seq<Part>) returns (r: Result<()>, ghost collected: PinTable, ghost gathered: seq<Pin>)
    requires c.Valid()
    modifies c`internalPins, c`parts, c`Repr, c.arena
    ensures c.Valid() && Grows(old(c.arena.pins), c.arena.pins)
    ensures WF(gathered) && c.TablesHeld(gathered) && Grows(old(c.arena.pins), gathered)
    ensures r.Ok? ==> PartsWired(c, gathered, parts) == Ok(c.arena.pins)
    ensures Keys(collected) == Collected(HostNames(c), PartSides(parts))
    ensures forall e | e in collected :: e.1 < |c.arena.pins| && c.arena.pins[e.1].Bus? && c.arena.pins[e.1].width == 1
    ensures c.internalPins == InsertAll(old(c.internalPins), collected)
    ensures r.Ok? <==> forall i | 0 <= i < |parts| :: parts[i].name in Registered
    ensures r.Ok? ==> |c.parts| == |old(c.parts)| + |parts| && c.parts[..|old(c.parts)|] == old(c.parts)
    ensures r.Ok? ==> Kinds(c.parts) == Kinds(old(c.parts)) + Registry(parts)
    ensures r.Err? ==> r.fault == Hardware
  {
    var ps0 := c.arena.pins;
    collected := AddCollectedPins(c, parts);
    var ps1 := c.arena.pins;
    gathered := ps1;
    r := InstantiateParts(c, parts);
    GrowsTrans(ps0, ps1, c.arena.pins);
    forall e | e in collected
      ensures e.1 < |c.arena.pins| && c.arena.pins[e.1].Bus? && c.arena.pins[e.1].width == 1
    {
    }
  }

  /** What `build_chip` makes of a composite description's declarations:
    * a chip of the description's name whose input and output pins are the
    * declared ones at their declared widths, whose internal pins are the
    * collected names, each a 1-bit bus, and whose sub-chips are the
    * parts' kinds in order. */
  ghost predicate Laid(c: Chip, h: HdlChip)
    reads c, c.arena, c.Repr
  {
    c.Valid() && c.name == h.name &&
    TableNames(c.inputPins) == DeclNames(h.inputs) && TableNames(c.outputPins) == DeclNames(h.outputs) &&
    (forall e | e in c.inputPins :: DeclaredAs(c.arena.pins, h.inputs, e)) &&
    (forall e | e in c.outputPins :: DeclaredAs(c.arena.pins, h.outputs, e)) &&
    Keys(c.internalPins) == Collected(DeclNames(h.inputs) + DeclNames(h.outputs), PartSides(h.parts)) &&
    (forall e | e in c.internalPins :: c.arena.pins[e.1].Bus? && c.arena.pins[e.1].width == 1) &&
    Kinds(c.parts) == Registry(h.parts)
  }

  /** The chip laid out from h, whose arena is what wiring h's parts in
    * order made of base, the arena holding the host's pins. */
  ghost predicate Assembled(c: Chip, h: HdlChip, base: seq<Pin>)
    reads c, c.arena, c.Repr
  {
    Laid(c, h) && WF(base) && c.TablesHeld(base) && PartsWired(c, base, h.parts) == Ok(c.arena.pins)
  }

  /** Every entry of t stays a declared pin when the arena grows. */
  lemma DeclaredAll(ps: seq<Pin>, rs: seq<Pin>, decls: seq<PinDecl>, t: PinTable)
    requires Grows(ps, rs) && forall e | e in t :: DeclaredAs(ps, decls, e)
    ensures forall e | e in t :: DeclaredAs(rs, decls, e)
  {
    forall e | e in t
      ensures DeclaredAs(rs, decls, e)
    {
      DeclaredGrows(ps, rs, decls, e);
    }
  }

  /** A chip whose pins were declared and collected from h, starting with
    * no internal pins, and whose parts are h's, is laid out from h. */
  lemma AssembledFrom(c: Chip, h: HdlChip, collected: PinTable)
    requires c.Valid() && c.name == h.name
    requires TableNames(c.inputPins) == DeclNames(h.inputs) && TableNames(c.outputPins) == DeclNames(h.outputs)
    requires forall e | e in c.inputPins :: DeclaredAs(c.arena.pins, h.inputs, e)
    requires forall e | e in c.outputPins :: DeclaredAs(c.arena.pins, h.outputs, e)
    requires Keys(collected) == Collected(HostNames(c), PartSides(h.parts))
    requires forall e | e in collected :: e.1 < |c.arena.pins| && c.arena.pins[e.1].Bus? && c.arena.pins[e.1].width == 1
    requires c.internalPins == InsertAll([], collected)
    requires Kinds(c.parts) == Registry(h.parts)
    ensures Laid(c, h)
  {
    CollectedNames(HostNames(c), PartSides(h.parts), "");
    InsertAllNew([], collected);
  }

  /** `build_chip` on a composite description. */
  method BuildComposite(h: HdlChip, arena: Arena) returns (r: Result<Chip>, ghost base: seq<Pin>)
    requires arena.Valid() && WidthsOk(h.inputs) && WidthsOk(h.outputs)
    modifies arena
    ensures arena.Valid() && Grows(old(arena.pins), arena.pins)
    ensures r.Ok? <==> forall i | 0 <= i < |h.parts| :: h.parts[i].name in Registered
    ensures r.Ok? ==> fresh(r.value) && r.value.arena == arena && Assembled(r.value, h, base)
    ensures r.Err? ==> r.fault == Hardware
  {
    var c := new Chip(h.name, arena);
    var ps0 := arena.pins;
    DeclareHost(c, h);
    var ps1 := arena.pins;
    var e, collected, gathered := BuildParts(c, h.parts);
    base := gathered;
    GrowsTrans(ps0, ps1, arena.pins);
    if e.Err? {
      r := Err(e.fault);
      return;
    }
    DeclaredAll(ps1, arena.pins, h.inputs, c.inputPins);
    DeclaredAll(ps1, arena.pins, h.outputs, c.outputPins);
    AssembledFrom(c, h, collected);
    r := Ok(c);
  }

  /** The first steps of `build_chip` on a new chip: its input pins, then
    * its output pins, created from the declarations. */
  method DeclareHost(c: Chip, h: HdlChip)
    requires c.Valid() && WidthsOk(h.inputs) && WidthsOk(h.outputs)
    requires c.inputPins == [] && c.outputPins == []
    modifies c`inputPins, c`outputPins, c.arena
    ensures c.Valid() && Grows(old(c.arena.pins), c.arena.pins)
    ensures TableNames(c.inputPins) == DeclNames(h.inputs) && TableNames(c.outputPins) == DeclNames(h.outputs)
    ensures forall e | e in c.inputPins :: DeclaredAs(c.arena.pins, h.inputs, e)
    ensures forall e | e in c.outputPins :: DeclaredAs(c.arena.pins, h.outputs, e)
  {
    var ps0 := c.arena.pins;
    DeclareInputs(c, h.inputs);
    var ps1 := c.arena.pins;
    DeclareOutputs(c, h.outputs);
    GrowsTrans(ps0, ps1, c.arena.pins);
    DeclaredAll(ps1, c.arena.pins, h.inputs, c.inputPins);
  }


  /** `build_chip`: a builtin description is built by the registry under
    * its name; any other gets a new composite chip. */
  method BuildChip(h: HdlChip, arena: Arena) returns (r: Result<Built>, ghost base: seq<Pin>)
    requires arena.Valid() && (!h.isBuiltin ==> WidthsOk(h.inputs) && WidthsOk(h.outputs))
    modifies arena
    ensures arena.Valid() && Grows(old(arena.pins), arena.pins)
    ensures r.Err? ==> r.fault == Hardware
    ensures h.isBuiltin ==> (r.Ok? <==> h.name in Registered)
    ensures h.isBuiltin && r.Ok? ==>
      r.value.Primitive? && fresh(r.value.part) && r.value.part.Valid() && NameOf(r.value.part.kind) == h.name
    ensures h.isBuiltin && r.Ok? ==> arena.pins == old(arena.pins) + Declared(r.value.part.kind)
    ensures !h.isBuiltin ==> (r.Ok? <==> forall i | 0 <= i < |h.parts| :: h.parts[i].name in Registered)
    ensures !h.isBuiltin && r.Ok? ==> r.value.Composite? && fresh(r.value.chip) && Assembled(r.value.chip, h, base)
  {
    if h.isBuiltin {
      base := arena.pins;
      var b := BuildBuiltinChip(h.name, arena);
      if b.Err? {
        r := Err(b.fault);
        return;
      }
      r := Ok(Primitive(b.value));
      return;
    }
    var c;
    c, base := BuildComposite(h, arena);
    if c.Err? {
      r := Err(c.fault);
      return;
    }
    r := Ok(Composite(c.value));
  }
}
