# Hack chip engine, modelled in Dafny

This project models the chip engine of `n2t_rust`, a Nand2Tetris hardware
simulator written in Rust (`n2t_rust/src/chip/`). It covers:

- **Buses and pins.** A `Bus` is a row of 1 to 16 voltages that drives
  other pins. It can be read as a 16-bit word, written, pulled one bit at
  a time, toggled and connected. The model also covers the constant pins
  `true`/`false`/`1`/`0`, the `InSubBus` and `OutSubBus` views over a
  field of a bus, and the older `SubBus` of `bus.rs`.
- **Pin ranges.** `PinRange` and the parser of `name`, `name[k]` and
  `name[a..b]`.
- **The composite `Chip`.** Its three pin tables, its sub-chips, the
  validation and making of wire connections in `wire`, and `eval` and
  `reset`.
- **The builtin chips.** The combinational gates, the arithmetic chips and
  the ALU, and the clocked DFF, Bit, Register, PC and RAMs. The screen,
  keyboard and ROM are covered too, with the `Memory` behind them.
- **The clock.**
- **`ChipBuilder`.** It turns an HDL chip description into a builtin chip
  from its registry, or into a composite chip. For a composite chip it
  declares the pins, collects the internal pins, and builds and wires
  the parts.

**How the model is laid out.**

- *The pin arena.* Every `Rc<RefCell<dyn Pin>>` of the engine is an index
  into one shared `Wiring.Arena` object, whose `pins` sequence the
  methods update in place.
- *Borrows.* The pure functions `SetV`, `Pulled`, `Toggled` and `Connected`
  state what a write does to the arena. They carry the set of pins
  currently borrowed, as `RefCell` would have them. A write that a bus
  propagates to a borrowed pin is skipped, as the failing `try_borrow_mut`
  skips it. A write through a view whose parent is already borrowed is
  different: the view's `borrow_mut` would panic there, and the model
  leaves the arena unchanged instead (see "Left out").
- *Chips as classes.* `Chips.Chip` and `BuiltinChips.BuiltinChip` are
  classes whose methods update their tables, state and arena. Each
  method's `ensures` ties the new state to a specification function.
  `BuiltinChip` stands for every builtin chip type, with a `kind` field.
  Its pin writes go through `Builtins.EvalWrites`, `TickWrites`,
  `TockWrites` and `ResetWrites`.
- *Pin tables.* A `HashMap<String, pin>` is a `PinTable`: a sequence of
  (name, pin) entries with insert-or-replace.
- *Values.* The gates, the adders, the ALU, bit arithmetic on 16-bit
  words (`Signal`), the memory contents and the pin-range parser are pure
  functions.

## Model

| member | source | states |
|---|---|---|
| Signal.Flip | n2t_rust/src/chip/bus.rs:111-116 | The level `toggle` pulls a bit to: HIGH exactly when the bit was LOW, and always HIGH or LOW |
| Signal.TestBit | n2t_rust/src/chip/bus.rs:89-94 | The test `v & (1 << i) != 0` of `set_bus_voltage` holds exactly when bit i of v is set |
| Signal.PackUnpack | n2t_rust/src/chip/bus.rs:79-94 | Spreading v over `width` voltages and packing them back gives v masked to the low `width` bits |
| Signal.PackUnpackFull | n2t_rust/src/chip/bus.rs:79-94 | At width 16 the write/read round trip gives back v exactly |
| Signal.UnpackPack | n2t_rust/src/chip/bus.rs:79-94 | A state of HIGH/LOW voltages packed to a word and spread back is unchanged |
| Signal.PackLow | n2t_rust/src/chip/bus.rs:15-24 | A fresh bus of LOW voltages reads 0 |
| Signal.MaskIsMod | n2t_rust/src/chip/subbus.rs:11-17 | `w & mask(n)` is w mod 2^n and lies below 2^n |
| Signal.SliceSplice | n2t_rust/src/chip/subbus.rs:69-82 | Reading back the field an `InSubBus` wrote into the parent gives the low `width` bits written |
| Signal.SpliceSlice | n2t_rust/src/chip/subbus.rs:69-82 | Writing back the field just read leaves the parent word unchanged |
| Signal.SpliceSplice | n2t_rust/src/chip/subbus.rs:69-82 | Of two writes to the same field, the second wins |
| PinRanges.ConstantLevel | n2t_rust/src/chip/pin.rs:32-40 | `ConstantPin::new` accepts exactly the constant names; "true"/"1" give HIGH, "false"/"0" give LOW, and any other name is a Hardware error |
| PinRanges.PinRange.Width | n2t_rust/src/chip/subbus.rs:309-315 | A range is at least 1 bit wide; a whole pin counts as 1, and a range as end - start + 1 |
| PinRanges.Whole | n2t_rust/src/chip/subbus.rs:278-284 | `PinRange::new` names the whole pin and is 1 wide |
| PinRanges.SingleBit | n2t_rust/src/chip/subbus.rs:286-292 | `new_single_bit` has start == end == bit and width 1 |
| PinRanges.NewRange | n2t_rust/src/chip/subbus.rs:294-307 | `new_range` succeeds exactly when start <= end; the range then has those bounds and width end - start + 1; otherwise it is a Hardware error |
| PinRanges.SplitTwo | n2t_rust/src/chip/subbus.rs:394 | `split` on a separator that occurs nowhere else cuts `a + sep + b` back into exactly [a, b] |
| PinRanges.TrimEnd | n2t_rust/src/chip/subbus.rs:408 | `trim_end_matches` keeps a prefix, drops only the trimmed character, and leaves none at the end |
| PinRanges.ParseUsize | n2t_rust/src/chip/subbus.rs:417-420 | A parsed index is below 2^64 and comes from text starting with a digit or '+' |
| PinRanges.ParseDigits | n2t_rust/src/chip/subbus.rs:432-433 | Parsing the decimal text of any 64-bit number gives that number back |
| PinRanges.ParsePinRange | n2t_rust/src/chip/subbus.rs:383-436 | Empty text is refused; a parsed range is valid and has a nonempty name without '['; text without '[' is the whole pin |
| PinRanges.ParseIndex | n2t_rust/src/chip/subbus.rs:410-435 | The bracketed part gives a valid range that is not a whole pin, or a Parse error |
| PinRanges.ParseBounds | n2t_rust/src/chip/subbus.rs:412-429 | "lo..hi" gives a valid range that is not a whole pin, or a Parse error |
| PinRanges.Bracketed | n2t_rust/src/chip/subbus.rs:394-408 | "name[inner]" with one '[' comes down to parsing the trimmed inner text |
| PinRanges.ParseWhole | n2t_rust/src/chip/subbus.rs:388-391 | A bare nonempty name without '[' parses to the whole pin |
| PinRanges.ParseSingleBit | n2t_rust/src/chip/subbus.rs:430-434 | "name[k]" parses to the single bit k |
| PinRanges.ParseSpan | n2t_rust/src/chip/subbus.rs:410-429 | "name[a..b]" parses to the range from min(a, b) to max(a, b), so a reversed range is normalised |
| PinRanges.ParseNeedsName | n2t_rust/src/chip/subbus.rs:399-402 | A bracket with no name before it is refused |
| PinRanges.ParseNeedsClose | n2t_rust/src/chip/subbus.rs:404-406 | A bracketed part that does not end in ']' is refused |
| PinRanges.ParseNeedsNumber | n2t_rust/src/chip/subbus.rs:432-433 | A single index that is not a number is refused |
| PinRanges.ParseNeedsNumbers | n2t_rust/src/chip/subbus.rs:417-420 | A range with a bound that is not a number is refused |
| Wiring.SetV | n2t_rust/src/chip/bus.rs:89-94 | `set_bus_voltage` on any pin keeps every pin's kind and width and the arena well formed, and never changes a borrowed pin |
| Wiring.Push | n2t_rust/src/chip/bus.rs:55-67 | The propagation loop keeps every pin's kind and width and never changes a borrowed pin |
| Wiring.Pulled | n2t_rust/src/chip/bus.rs:96-109 | `pull` on any pin keeps kinds and widths and never changes a borrowed pin |
| Wiring.PullPush | n2t_rust/src/chip/bus.rs:41-53 | The bit-propagation loop keeps kinds and widths and never changes a borrowed pin |
| Wiring.PullBit | n2t_rust/src/chip/bus.rs:96-109 | A pulled bus holds x at `bit` when the bit is below its width and keeps every other voltage, its width and what it drives |
| Wiring.PulledLeaf | n2t_rust/src/chip/bus.rs:96-109 | Pulling a bus that drives nothing changes that bus alone, as `PullBit` says |
| Wiring.PullLeaves | n2t_rust/src/chip/bus.rs:41-53 | The propagation loop over buses that drive nothing pulls each of them at the same bit to the same voltage and changes no pin outside the list |
| Wiring.PullDrives | n2t_rust/src/chip/bus.rs:96-109 | `pull(x, Some(bit))` on a bus that drives only buses that drive nothing sets its own bit to x and pulls each driven bus at that bit; no other pin changes |
| Wiring.Toggled | n2t_rust/src/chip/bus.rs:111-116 | `toggle` keeps kinds and widths and never changes a borrowed pin |
| Wiring.BusVoltageAt | n2t_rust/src/chip/bus.rs:118-128 | A bus's `voltage(Some(bit))` is an error exactly when bit >= width, and otherwise is that voltage |
| Wiring.VoltageOf | n2t_rust/src/chip/subbus.rs:95-104 | `voltage` of any pin fails only with a Hardware error |
| Wiring.Connected | n2t_rust/src/chip/bus.rs:130-139 | `connect` keeps the arena's size and well-formedness and never changes a borrowed pin |
| Wiring.ConnectLeaf | n2t_rust/src/chip/bus.rs:130-139 | Connecting a bus to a bus t that drives nothing writes t the bus value at t's own width and appends t to the bus's connections; nothing else changes |
| Wiring.ConnectLeafOnly | n2t_rust/src/chip/bus.rs:130-139 | The same pin by pin: the bus's connections gain t at the end, t still drives nothing, and every other pin is unchanged |
| Wiring.SetBusVoltageRoundTrip | n2t_rust/src/chip/bus.rs:79-94 | After `set_bus_voltage(v)` a bus reads v masked to its width; at width 16 it reads v |
| Wiring.PullBusLocal | n2t_rust/src/chip/bus.rs:96-109 | A pulled bus holds x at `bit` and keeps its other voltages; past the width it is unchanged |
| Wiring.PullSetsOneBit | n2t_rust/src/chip/bus.rs:96-109 | `pull(x, Some(bit))` succeeds exactly when bit < width, and then sets that bit of the value to x and keeps every other bit; past the width nothing changes |
| Wiring.ToggleTwice | n2t_rust/src/chip/bus.rs:111-116 | Toggling the same bit of a bus twice restores the bus |
| Wiring.VoltageIsBit | n2t_rust/src/chip/bus.rs:118-128 | `voltage(Some(i))` is bit i of `bus_voltage()`, and is an error exactly when i >= width |
| Wiring.InViewWrite | n2t_rust/src/chip/subbus.rs:69-82 | An `InSubBus` write sets exactly bits [start, start + width) of the parent to the low bits of v and keeps the parent's other bits |
| Wiring.InViewReadBack | n2t_rust/src/chip/subbus.rs:64-82 | An `InSubBus` reads back what was written to it, masked to its width |
| Wiring.ViewForwards | n2t_rust/src/chip/subbus.rs:84-123 | A view's `pull`, `toggle` and `voltage` at bit b act on bit start + b of the parent, and fail exactly when b >= the view's width, changing nothing |
| Wiring.ViewRead | n2t_rust/src/chip/subbus.rs:64-67 | A view reads `(parent >> start) & mask(width)` |
| Wiring.ConnectCopies | n2t_rust/src/chip/bus.rs:130-139 | Connecting a bus to a target bus writes the bus value into the target (masked to its width) and appends the target to the bus's connections; the bus's own voltages do not change |
| Wiring.ConnectThroughView | n2t_rust/src/chip/subbus.rs:106-112 | `InSubBus::connect` hands the connection to its parent |
| Wiring.ConnectOwnView | n2t_rust/src/chip/bus.rs:130-139 | A bus connected to a view over itself records the view and writes nothing, where the source panics |
| Wiring.ConnectOwnParent | n2t_rust/src/chip/subbus.rs:246-253 | An `OutSubBus` connected to its own parent records it and writes nothing, so the parent keeps its value, where the source panics |
| Wiring.SetBusVoltageDrives | n2t_rust/src/chip/bus.rs:55-67 | Writing a bus pushes v to every pin it drives; each driven leaf bus then holds v masked to its own width |
| Wiring.RangeView | n2t_rust/src/chip/subbus.rs:339-379 | The view a sub-bus creation makes for a range is an `InSubBus` for input and an `OutSubBus` for output, over exactly the range's start and width |
| Wiring.WidenValue | n2t_rust/src/chip/bus.rs:26-39 | Widening a bus keeps the arena well formed and keeps the value of every pin |
| Wiring.Arena.NewBus | n2t_rust/src/chip/bus.rs:15-24 | `Bus::new` appends a bus of `width` LOW voltages that drives nothing; it reads 0 |
| Wiring.Arena.NewConstant | n2t_rust/src/chip/pin.rs:32-40 | A constant pin is created exactly for a constant name, at its level; other names are a Hardware error and change nothing |
| Wiring.Arena.NewInView | n2t_rust/src/chip/subbus.rs:30-48 | `InSubBus::new` succeeds exactly when start + width fits the parent, and otherwise is a Hardware error and changes nothing |
| Wiring.Arena.NewOutView | n2t_rust/src/chip/subbus.rs:138-157 | `OutSubBus::new` succeeds exactly when the field fits; the new view drives nothing |
| Wiring.Arena.CreateInputSubBus | n2t_rust/src/chip/subbus.rs:339-358 | A whole-pin range gives the parent itself; otherwise a new `InSubBus` exactly when the range fits, else a Hardware error and no change |
| Wiring.Arena.CreateOutputSubBus | n2t_rust/src/chip/subbus.rs:360-379 | The same, with an `OutSubBus` |
| Wiring.Arena.EnsureWidth | n2t_rust/src/chip/bus.rs:26-39 | Fails exactly when n > 16, and then changes nothing; otherwise widens the bus, and every pin keeps its value |
| Wiring.Arena.BusVoltage | n2t_rust/src/chip/bus.rs:79-87 | The packing loop computes the pin's value |
| Wiring.Arena.SetBusVoltage | n2t_rust/src/chip/bus.rs:89-94 | The new arena is `SetV` of the old one |
| Wiring.Arena.PushVoltage | n2t_rust/src/chip/bus.rs:55-67 | The new arena is every unborrowed driven pin written v, in connection order |
| Wiring.Arena.Pull | n2t_rust/src/chip/bus.rs:96-109 | The new arena is `Pulled`; the answer is Ok exactly when the bit is in range, else a Hardware error |
| Wiring.Arena.PullAll | n2t_rust/src/chip/bus.rs:41-53 | Every unborrowed driven pin is pulled at the same bit, and their errors are dropped |
| Wiring.Arena.Toggle | n2t_rust/src/chip/bus.rs:111-116 | The new arena is `Toggled`, and Ok exactly when a pull of that bit would be |
| Wiring.Arena.Connect | n2t_rust/src/chip/bus.rs:130-139 | The new arena is `Connected` |
| Memories.ReadAfterWrite | n2t_rust/src/chip/builtins/sequential/memory.rs:17-29 | After `set(a, v)`, `get(b)` is v when b == a is in range, and the old word otherwise |
| Memories.WriteTwice | n2t_rust/src/chip/builtins/sequential/memory.rs:25-29 | A second write to an address replaces the first |
| Memories.WriteWhatWasRead | n2t_rust/src/chip/builtins/sequential/memory.rs:17-29 | Writing back the word just read changes nothing |
| Memories.ReadZeros | n2t_rust/src/chip/builtins/sequential/memory.rs:10-23 | A new or reset memory reads 0 in range and 0xFFFF past the end |
| Memories.Memory.constructor | n2t_rust/src/chip/builtins/sequential/memory.rs:10-15 | `Memory::new(size)` holds size words of 0 |
| Memories.Memory.Get | n2t_rust/src/chip/builtins/sequential/memory.rs:17-23 | `get` returns the stored word, and 0xFFFF at or past the size |
| Memories.Memory.Set | n2t_rust/src/chip/builtins/sequential/memory.rs:25-29 | `set` stores the word in range and ignores an address past the end |
| Memories.Memory.Reset | n2t_rust/src/chip/builtins/sequential/memory.rs:31-33 | `reset` makes every word 0 |
| Memories.Memory.Size | n2t_rust/src/chip/builtins/sequential/memory.rs:35-37 | `size` is the number of words |
| Builtins.DeclsFit | n2t_rust/src/chip/builtins/arithmetic/alu.rs:20-61 | Every pin a builtin chip declares is 1 to 16 bits wide, and every internal pin is 1 bit |
| Builtins.MemoryMap | n2t_rust/src/chip/builtins/computer/keyboard.rs:7 | The keyboard register follows the screen memory at once, and the screen starts where RAM16K ends |
| Builtins.MemorySizes | n2t_rust/src/chip/builtins/sequential/ram8.rs:26-46 | Each memory chip has exactly 2^k words for its k address bits |
| Builtins.MaskedAddress | n2t_rust/src/chip/builtins/sequential/ram8.rs:95-111 | The masked address (`address & 0b111` and so on) is the address modulo the memory size, so it always lies inside the memory |
| Builtins.Sample | n2t_rust/src/chip/builtins/logic/not.rs:33-40 | A 1-bit input is read as a raw voltage; a wider one as its word |
| Builtins.ApplyLeaves | n2t_rust/src/chip/builtins/logic/dmux_multi.rs:41-60 | Writes to distinct output buses that drive nothing each store their own value and change no other pin |
| Builtins.ReadBack | n2t_rust/src/chip/builtins/sequential/dff.rs:104-119 | A 1-bit pin pulled to x reads back x; a 16-bit pin written v reads back v |
| Builtins.EvalStoresAsTick | n2t_rust/src/chip/builtins/sequential/ram8.rs:95-135 | A RAM8 or RAM16K stores on `eval` exactly what it stores on `tick` |
| Builtins.PixelPlace | n2t_rust/src/chip/builtins/computer/screen.rs:62-91 | Every on-screen pixel lies in the screen memory, and two pixels share a word and a bit only when they are the same pixel |
| Builtins.ShrTest | n2t_rust/src/chip/builtins/computer/screen.rs:62-72 | The test `(w >> b) & 1 == 1` holds exactly when bit b of w is set |
| Builtins.PixelRoundTrip | n2t_rust/src/chip/builtins/computer/screen.rs:62-91 | `get_pixel` after `set_pixel(x, y, value)` gives value, and every other pixel keeps its value |
| Builtins.BlankAndFull | n2t_rust/src/chip/builtins/computer/screen.rs:94-105 | A cleared screen shows no pixel; a filled screen shows every on-screen pixel |
| Builtins.KeyCodes | n2t_rust/src/chip/builtins/computer/keyboard.rs:55-68 | Letters, digits and space type their own code; a character types 0 (no key) exactly when its code point is a multiple of 0x10000 |
| Builtins.RomAddress | n2t_rust/src/chip/builtins/computer/rom32k.rs:97-104 | Every ROM address below 32768 passes the 15-bit mask unchanged |
| Builtins.LoadedReads | n2t_rust/src/chip/builtins/computer/rom32k.rs:38-44 | After `load_program`, the ROM reads each program word at its own address |
| Builtins.DffDelays | n2t_rust/src/chip/builtins/sequential/dff.rs:104-119 | `tock` after `tick` pulls `out` to the value `in` had at the tick |
| Builtins.LoadOrHold | n2t_rust/src/chip/builtins/sequential/register.rs:99-107 | A Bit or Register loads `in` on a tick with load HIGH and keeps its value with load LOW |
| Builtins.PcPriority | n2t_rust/src/chip/builtins/sequential/pc.rs:101-123 | On a tick the PC obeys reset (to 0) over load (to `in`) over inc (+1 mod 2^16), and otherwise holds |
| Builtins.PcCounts | n2t_rust/src/chip/builtins/sequential/pc.rs:101-123 | A PC that only counts for n ticks advances by n, modulo 2^16 |
| Builtins.UntouchedWordKept | n2t_rust/src/chip/builtins/sequential/ram64.rs:114-126 | A RAM or screen word that no tick with load HIGH addresses keeps its value through a run of ticks |
| Builtins.RamWriteThenRead | n2t_rust/src/chip/builtins/sequential/ram8.rs:123-142 | A RAM stores `in` on a tick with load HIGH, and the next `tock` writes exactly that word to `out` |
| Builtins.EvalWriteThrough | n2t_rust/src/chip/builtins/sequential/ram16k.rs:95-111 | A RAM8 or RAM16K evaluated with load HIGH writes `in` to `out` in the same evaluation |
| Builtins.ResetClears | n2t_rust/src/chip/builtins/sequential/ram8.rs:113-119 | After `reset` a RAM or the screen reads 0 at every address |
| BuiltinChips.Allocate | n2t_rust/src/chip/builtins/logic/not.rs:20-24 | The arena grows by exactly `FreshBuses(decls)`: one new LOW bus per declaration, at consecutive ids, each as wide as declared; the old pins are kept |
| BuiltinChips.AllocateAll | n2t_rust/src/chip/builtins/sequential/dff.rs:24-42 | The arena grows by exactly the fresh buses of the inputs, then the outputs, then the internal pins; their ids are one consecutive span, distinct, each fitting its declaration |
| BuiltinChips.AllocateKind | n2t_rust/src/chip/builtins/sequential/ram8.rs:26-46 | The arena grows by exactly `Declared(k)`, the pins the kind declares, and the ids returned are that span, each fitting its declaration |
| BuiltinChips.FreshBusesFresh | n2t_rust/src/chip/bus.rs:15-24 | Each of the buses made for a list of declarations is a new LOW bus of its declaration's width that drives nothing, one per declaration |
| BuiltinChips.FreshBusesFit | n2t_rust/src/chip/builtins/logic/not.rs:20-24 | Appending them keeps the old pins, and the appended span fits the declarations one by one |
| BuiltinChips.DeclaredWF | n2t_rust/src/chip/builtins/sequential/ram8.rs:26-46 | The pins any chip kind declares keep the arena well formed |
| BuiltinChips.DeclaredLow | n2t_rust/src/chip/builtins/sequential/ram8.rs:26-46 | The pins a chip declares are new buses that read 0 |
| BuiltinChips.EvalPart | n2t_rust/src/chip/chip.rs:449-462 | One sub-chip's `eval` keeps pin kinds and widths and its memory size |
| BuiltinChips.ResetPart | n2t_rust/src/chip/chip.rs:464-484 | One sub-chip's `reset` keeps its kind, its pin lists and its memory size |
| BuiltinChips.Lookup | n2t_rust/src/chip/builtins/mod.rs:34-46 | A table lookup finds a pin exactly when the name is in the table, and returns an entry under that name |
| BuiltinChips.TabulateNames | n2t_rust/src/chip/builtins/logic/or.rs:12-31 | The table a constructor fills knows exactly the declared names, and maps each to a pin allocated for that declaration |
| BuiltinChips.SampleAll | n2t_rust/src/chip/builtins/arithmetic/add16.rs:34-43 | The reading loop gives the sampled value of every input, in order |
| BuiltinChips.BuiltinChip.constructor | n2t_rust/src/chip/builtins/sequential/ram8.rs:26-46 | `XChip::new()` appends exactly `Declared(kind)` to the arena, and its input, output and internal pins are that span in order; it has a zeroed memory of its size and cleared state |
| BuiltinChips.BuiltinChip.SampleInputs | n2t_rust/src/chip/builtins/arithmetic/mux16.rs:37-48 | The inputs are read in declaration order |
| BuiltinChips.BuiltinChip.Eval | n2t_rust/src/chip/builtins/arithmetic/alu.rs:99-129 | `eval` applies the chip's output writes to the sampled inputs, and a RAM8 or RAM16K also stores on load; the latched state is unchanged |
| BuiltinChips.BuiltinChip.Tick | n2t_rust/src/chip/builtins/sequential/pc.rs:101-123 | `tick` updates the latched state and memory from the sampled inputs; the DFF also pulls its internal pin |
| BuiltinChips.BuiltinChip.Store | n2t_rust/src/chip/builtins/sequential/ram64.rs:114-126 | A RAM or the screen stores `in` at the masked address when load is HIGH |
| BuiltinChips.BuiltinChip.Tock | n2t_rust/src/chip/builtins/sequential/register.rs:109-113 | `tock` writes the latched state to `out` |
| BuiltinChips.BuiltinChip.Reset | n2t_rust/src/chip/builtins/mod.rs:56-64 | `reset` clears the state and a RAM's or screen's memory, then writes the reset values to the pins |
| BuiltinChips.BuiltinChip.GetPin | n2t_rust/src/chip/builtins/mod.rs:34-46 | Finds the name in the inputs, then the outputs (a DFF also in its internals, the keyboard only in its outputs); a miss is Hardware for the combinational chips and PinNotFound for the others |
| BuiltinChips.BuiltinChip.GetPinDeclared | n2t_rust/src/chip/builtins/computer/keyboard.rs:93-101 | `get_pin` answers exactly the declared names, with the pin declared under the name, an input before an output |
| BuiltinChips.BuiltinChip.IsPinDeclared | n2t_rust/src/chip/builtins/mod.rs:48-54 | A name is an input (output) pin exactly when the chip declares an input (output) of that name |
| BuiltinChips.BuiltinChip.PixelAt | n2t_rust/src/chip/builtins/computer/screen.rs:62-72 | `get_pixel` reads the pixel's bit of the screen memory |
| BuiltinChips.BuiltinChip.SetPixelAt | n2t_rust/src/chip/builtins/computer/screen.rs:75-91 | `set_pixel` sets or clears exactly that pixel's bit |
| BuiltinChips.BuiltinChip.FillWith | n2t_rust/src/chip/builtins/computer/screen.rs:94-105 | Every screen word is set to v |
| BuiltinChips.BuiltinChip.ClearScreen | n2t_rust/src/chip/builtins/computer/screen.rs:94-98 | Afterwards no pixel is set |
| BuiltinChips.BuiltinChip.FillScreen | n2t_rust/src/chip/builtins/computer/screen.rs:101-105 | Afterwards exactly the on-screen pixels are set |
| BuiltinChips.BuiltinChip.SetKey | n2t_rust/src/chip/builtins/computer/keyboard.rs:42-46 | The key becomes the current key and is written to `out` at once |
| BuiltinChips.BuiltinChip.ClearKey | n2t_rust/src/chip/builtins/computer/keyboard.rs:49-52 | The current key becomes 0, no key is pressed, and `out` is written 0 |
| BuiltinChips.BuiltinChip.TypeChar | n2t_rust/src/chip/builtins/computer/keyboard.rs:55-68 | The key code of c becomes the current key and is written to `out` |
| BuiltinChips.BuiltinChip.LoadProgram | n2t_rust/src/chip/builtins/computer/rom32k.rs:38-44 | Each program word is stored at its index, and indices from 32768 on are skipped |
| BuiltinChips.BuiltinChip.SetMemory | n2t_rust/src/chip/builtins/computer/rom32k.rs:52-56 | One word is stored below 32768, and a write at or past 32768 is ignored |
| LogicGates.Level | n2t_rust/src/chip/builtins/logic/or.rs:35-44 | The level an output is pulled to for a condition: HIGH exactly when it holds |
| LogicGates.DMux4Way | n2t_rust/src/chip/builtins/logic/dmux_multi.rs:41-60 | DMux4Way drives four outputs |
| LogicGates.DMux8Way | n2t_rust/src/chip/builtins/logic/dmux_multi.rs:103-130 | DMux8Way drives eight outputs |
| LogicGates.SelLine | n2t_rust/src/chip/builtins/logic/dmux_multi.rs:41-60 | A selector line is HIGH exactly when its bit of `sel` is set |
| LogicGates.NotTwice | n2t_rust/src/chip/builtins/logic/not.rs:33-40 | Not always drives a level, and undoes itself on levels |
| LogicGates.GatesAgreeWithWords | n2t_rust/src/chip/builtins/arithmetic/not16.rs:32-39 | The 1-bit Not and Or agree with bit 0 of the 16-bit Not16 and Or16 |
| LogicGates.OrLaws | n2t_rust/src/chip/builtins/logic/or.rs:35-44 | Or is commutative, HIGH absorbs, and LOW is neutral on levels |
| LogicGates.MuxUndoesDMux | n2t_rust/src/chip/builtins/logic/dmux.rs:37-54 | A DMux followed by a Mux on the same select line gives back the input level |
| LogicGates.DMux4WayTree | n2t_rust/src/chip/builtins/logic/dmux_multi.rs:41-60 | DMux4Way (routing by `sel & 0b11`) equals a tree of three DMuxes on bits 1 and 0 of sel |
| LogicGates.DMux8WayTree | n2t_rust/src/chip/builtins/logic/dmux_multi.rs:103-130 | DMux8Way (routing by `sel & 0b111`) equals a DMux on bit 2 feeding two DMux4Ways |
| LogicGates.DMux8WayOneHot | n2t_rust/src/chip/builtins/logic/dmux_multi.rs:103-130 | At most one DMux8Way output is HIGH, and only when the input is HIGH |
| Arithmetic.Mux4Way16Tree | n2t_rust/src/chip/builtins/arithmetic/mux16.rs:83-102 | Mux4Way16 equals a tree of three Mux16s on bits 0 and 1 of sel |
| Arithmetic.Mux8Way16Tree | n2t_rust/src/chip/builtins/arithmetic/mux16.rs:145-172 | Mux8Way16 is a Mux16 on bit 2 of sel over two Mux4Way16s |
| Arithmetic.Mux16Bitwise | n2t_rust/src/chip/builtins/arithmetic/mux16.rs:37-48 | Every bit of Mux16 is the 1-bit Mux of the two input bits |
| Arithmetic.HalfAdderAdds | n2t_rust/src/chip/builtins/arithmetic/half_adder.rs:37-60 | On levels, sum + 2 * carry = a + b |
| Arithmetic.FullAdderAdds | n2t_rust/src/chip/builtins/arithmetic/full_adder.rs:36-79 | On levels, sum + 2 * carry = a + b + c, and both outputs are levels |
| Arithmetic.RippleAdds | n2t_rust/src/chip/builtins/arithmetic/full_adder.rs:56-79 | A chain of n full adders computes a + b + c modulo 2^n |
| Arithmetic.Add16IsRipple | n2t_rust/src/chip/builtins/arithmetic/add16.rs:34-43 | `a.wrapping_add(b)` is the 16-bit ripple-carry sum |
| Arithmetic.Inc16IsRipple | n2t_rust/src/chip/builtins/arithmetic/inc16.rs:32-40 | `wrapping_add(1)` is the adder with carry-in HIGH, and 0xFFFF wraps to 0 |
| Alu.FlagOf | n2t_rust/src/chip/builtins/arithmetic/alu.rs:64-93 | The flag is Zero exactly for 0, Negative exactly when bit 15 is set, and Positive otherwise |
| Alu.ControlWordBits | n2t_rust/src/chip/builtins/arithmetic/alu.rs:99-129 | Each control pin lands on its own bit of the control word |
| Alu.ControlBits | n2t_rust/src/chip/builtins/arithmetic/alu.rs:64-93 | The operation's test of each control bit reads back the pin that set it |
| Alu.AluFlagsReport | n2t_rust/src/chip/builtins/arithmetic/alu.rs:99-129 | zr is HIGH exactly for a zero result, ng exactly when bit 15 is set, and never both |
| Alu.EvalComputesOut | n2t_rust/src/chip/builtins/arithmetic/alu.rs:99-129 | `eval` on control pins driven HIGH/LOW computes the Hack ALU's zx/nx/zy/ny/f/no function |
| Alu.AluConstants | n2t_rust/src/chip/builtins/arithmetic/alu.rs:64-93 | The constant rows of the Hack ALU table give 0, 1 and -1 |
| Alu.AluPassThrough | n2t_rust/src/chip/builtins/arithmetic/alu.rs:64-93 | The rows x, y, !x and !y |
| Alu.AluIncrements | n2t_rust/src/chip/builtins/arithmetic/alu.rs:64-93 | The rows -x, -y, x+1, y+1, x-1 and y-1 |
| Alu.AluSums | n2t_rust/src/chip/builtins/arithmetic/alu.rs:64-93 | The rows x+y, x-y and y-x, modulo 2^16 |
| Alu.AluLogic | n2t_rust/src/chip/builtins/arithmetic/alu.rs:64-93 | The rows x&y and x\|y |
| Clocks.LevelAfter | n2t_rust/src/chip/clock.rs:33-46 | After n ticks from reset the level is HIGH exactly when n is odd |
| Clocks.TickFlips | n2t_rust/src/chip/clock.rs:33-46 | A tick flips the level of n ticks to that of n + 1 |
| Clocks.Clock.constructor | n2t_rust/src/chip/clock.rs:19-27 | A new clock is LOW with no ticks |
| Clocks.Clock.Tick | n2t_rust/src/chip/clock.rs:33-46 | `tick` succeeds, adds one tick and flips the level |
| Clocks.Clock.Reset | n2t_rust/src/chip/clock.rs:48-58 | `reset` returns to LOW with no ticks |
| Clocks.Clock.Level | n2t_rust/src/chip/clock.rs:60-62 | The level is HIGH exactly after an odd number of ticks |
| Clocks.Clock.Ticks | n2t_rust/src/chip/clock.rs:64-66 | The tick count fits a `u64` |
| LegacySubBus.LegacyMask | n2t_rust/src/chip/bus.rs:180-195 | `(1 << width) - 1` is the mask below 16 bits and 0 at width 16 |
| LegacySubBus.LegacyAgreesBelow16 | n2t_rust/src/chip/bus.rs:180-195 | Below 16 bits the older view reads and writes exactly as the views of subbus.rs |
| LegacySubBus.LegacyFullWidthLost | n2t_rust/src/chip/bus.rs:180-195 | A 16-bit older view reads 0 whatever the parent holds, and a write through it changes nothing |
| LegacySubBus.LegacyRoundTripFails | n2t_rust/src/chip/bus.rs:182 | Writing 0xFFFF through a 16-bit older view of a bus holding 0 reads back 0, where the subbus.rs views read back 0xFFFF |
| LegacySubBus.ViewRoundTrip | n2t_rust/src/chip/subbus.rs:11-17 | With the saturating `mask`, the write/read round trip holds at every width that fits, 16 included |
| Chips.LookupInsert | n2t_rust/src/chip/chip.rs:118-128 | After `insert(name, pin)` the name finds pin, and every other name finds what it found before |
| Chips.ConstBusValue | n2t_rust/src/chip/chip.rs:379-403 | The bus made for "true" holds 1 and the one for "false" holds 0 |
| Chips.Narrow | n2t_rust/src/chip/chip.rs:293-333 | Without a range, or for a whole-pin range, the pin itself; otherwise InvalidRange naming the side exactly when the range does not fit |
| Chips.EvalAll | n2t_rust/src/chip/chip.rs:449-462 | Evaluating every sub-chip keeps pin kinds and widths and yields one memory per sub-chip |
| Chips.ResetAll | n2t_rust/src/chip/chip.rs:464-484 | Resetting every sub-chip keeps pin kinds and widths and yields one state per sub-chip |
| Chips.Refresh | n2t_rust/src/chip/chip.rs:150-160 | Propagating the tracked views keeps pin kinds and widths |
| Chips.RefreshOut | n2t_rust/src/chip/subbus.rs:193-218 | Refreshing an `OutSubBus` pushes its current field to every pin it drives and writes nothing into its parent |
| Chips.RefreshIn | n2t_rust/src/chip/subbus.rs:69-82 | Refreshing an `InSubBus` writes its parent the parent's own value, the field being spliced back unchanged |
| Chips.FannedStep | n2t_rust/src/chip/chip.rs:150-160 | Refreshing the first of non-interfering `OutSubBus` views sets each bus it drives to its value and changes nothing else; the other views still do not interfere |
| Chips.RefreshFanned | n2t_rust/src/chip/chip.rs:150-160 | After refreshing non-interfering `OutSubBus` views, every bus a view drives holds the view's value masked to the bus's width, and no other pin changes |
| Chips.NotWrites | n2t_rust/src/chip/builtins/logic/not.rs:33-40 | A Not part evaluates by pulling its output to the inverse of its input voltage, and evaluating the one-part list does just that |
| Chips.PullInto | n2t_rust/src/chip/bus.rs:96-109 | Pulling a bus that drives only a bus p puts the voltage on p, and no pin but those two changes |
| Chips.NotEvaluates | n2t_rust/src/chip/builtins/logic/not.rs:33-40 | A Not part fed by bus hIn and driving bus hOut: after hIn is pulled to x and the part evaluates, hOut holds the inverse of x |
| Chips.ZeroedLeaves | n2t_rust/src/chip/chip.rs:464-484 | After reset's zeroing loops each listed pin that drives nothing reads 0, and no other pin changes |
| Chips.Chip.constructor | n2t_rust/src/chip/chip.rs:106-116 | `Chip::new` has no pins and no sub-chips |
| Chips.Chip.AddInputPin | n2t_rust/src/chip/chip.rs:118-120 | Inserts into the input table, replacing an entry of the same name |
| Chips.Chip.AddOutputPin | n2t_rust/src/chip/chip.rs:122-124 | Inserts into the output table, replacing an entry of the same name |
| Chips.Chip.AddInternalPin | n2t_rust/src/chip/chip.rs:126-128 | Inserts into the internal table, replacing an entry of the same name |
| Chips.Chip.AddSubChip | n2t_rust/src/chip/chip.rs:130-132 | The part joins the end of the sub-chip list |
| Chips.Chip.GetPin | n2t_rust/src/chip/chip.rs:423-439 | Found exactly when the name is in one of the three tables, taken from the input table first, then the output table, then the internal table; a miss is a Hardware error |
| Chips.Chip.GetPinBus | n2t_rust/src/chip/chip.rs:423-439 | A pin `get_pin` finds is a bus of the arena |
| Chips.Chip.ConnectPins | n2t_rust/src/chip/chip.rs:134-143 | Succeeds exactly when both names are found, and then connects them; otherwise a Hardware error and no change |
| Chips.Chip.HostWidth | n2t_rust/src/chip/chip.rs:203-268 | The host side is 1 bit for "true"/"false" and the pin's width for a found name; a missing name is MissingPin |
| Chips.Chip.Validate | n2t_rust/src/chip/chip.rs:181-268 | A connection is refused only as MissingPin, or as WidthMismatch with two different widths |
| Chips.Chip.ValidateAllPasses | n2t_rust/src/chip/chip.rs:163-178 | Validation passes exactly when every connection passes |
| Chips.Chip.ValidateAllFirst | n2t_rust/src/chip/chip.rs:163-178 | A validation error is that of the first failing connection |
| Chips.Chip.ValidateConnections | n2t_rust/src/chip/chip.rs:163-178 | The validation loop computes `ValidateAll` and reports only MissingPin or WidthMismatch |
| Chips.Chip.Resolve | n2t_rust/src/chip/chip.rs:379-403 | "true"/"false" become a new bus at the end of the arena; a found name is its pin with the arena unchanged; anything else is MissingPin |
| Chips.Chip.Make | n2t_rust/src/chip/chip.rs:271-290 | Making a connection only grows the arena, and fails only as MissingPin or InvalidRange |
| Chips.Chip.MakeAll | n2t_rust/src/chip/chip.rs:163-178 | Making the connections in order only grows the arena, and fails only as MissingPin or InvalidRange |
| Chips.Chip.MakeIntoPlain | n2t_rust/src/chip/chip.rs:293-333 | An input connection without ranges from a host pin h to a part input p is `h.connect(p)`: h gains p as its last driven pin and p takes h's value masked to its width; no view is tracked |
| Chips.Chip.MakeOutOfPlain | n2t_rust/src/chip/chip.rs:336-376 | An output connection without ranges from a part output f to a host pin h is `f.connect(h)`: f gains h and h takes f's value masked to its width |
| Chips.Chip.MakeAllIntoFirst | n2t_rust/src/chip/chip.rs:170-177 | When the first connection is such an input connection, the rest are made from the arena in which h drives p |
| Chips.Chip.MakeAllOutOfLast | n2t_rust/src/chip/chip.rs:170-177 | A single output connection of that kind is made as `f.connect(h)` and nothing else |
| Chips.Chip.NotPins | n2t_rust/src/chip/builtins/logic/not.rs:12-27 | A Not part's input is named "in" and its output "out" |
| Chips.Chip.NotWiringMakes | n2t_rust/src/chip/tests.rs:285-298 | Wiring a Not part `in=in, out=out` is `in.connect(Not.in)` then `Not.out.connect(out)`, with no view tracked |
| Chips.Chip.TwoConnections | n2t_rust/src/chip/bus.rs:130-139 | Two connections between four distinct buses that drive nothing leave each source driving exactly its target, which drives nothing |
| Chips.Chip.NotWired | n2t_rust/src/chip/tests.rs:285-298 | After that wiring the host's `in` drives exactly the part's input and the part's output drives exactly the host's `out` |
| Chips.Chip.WiredNotInverts | n2t_rust/src/chip/tests.rs:273-310 | A chip wired with one Not part: for every x, after `in` is pulled to x and the chip evaluates, `out` reads the inverse of x |
| Chips.Chip.ResolveSide | n2t_rust/src/chip/chip.rs:379-403 | Allocating resolution agrees with `Resolve`, and a refusal changes nothing |
| Chips.Chip.MakeInput | n2t_rust/src/chip/chip.rs:293-333 | The new arena, views and error are those of `Into` |
| Chips.Chip.MakeOutput | n2t_rust/src/chip/chip.rs:336-376 | The new arena, views and error are those of `OutOf` |
| Chips.Chip.MakeConnection | n2t_rust/src/chip/chip.rs:271-290 | The new arena, views and error are those of `Make` |
| Chips.Chip.MakeConnections | n2t_rust/src/chip/chip.rs:163-178 | The connection loop's arena, views and error are those of `MakeAll` |
| Chips.Chip.Wire | n2t_rust/src/chip/chip.rs:163-178 | A failed validation returns its error and changes nothing; otherwise the connections are made in order, and the part joins the sub-chips exactly when all succeed; a failure keeps what was made before it |
| Chips.Chip.Attach | n2t_rust/src/chip/chip.rs:170-177 | After validation: connections made in order, and the part added only when all succeed |
| Chips.Chip.PropagateViews | n2t_rust/src/chip/chip.rs:150-160 | The arena becomes `Refresh` of the views, and no memory changes |
| Chips.Chip.EvalParts | n2t_rust/src/chip/chip.rs:449-462 | The loop evaluates every sub-chip once in wiring order, as `EvalAll` |
| Chips.Chip.Eval | n2t_rust/src/chip/chip.rs:449-462 | `eval` propagates the views, evaluates every sub-chip in order, and propagates again |
| Chips.Chip.ResetParts | n2t_rust/src/chip/chip.rs:464-484 | The loop resets every sub-chip once in wiring order, as `ResetAll` |
| Chips.Chip.ZeroPins | n2t_rust/src/chip/chip.rs:464-484 | One table's loop sets each of its pins to 0 |
| Chips.Chip.Reset | n2t_rust/src/chip/chip.rs:464-484 | `reset` resets every sub-chip in order, then sets every input, output and internal pin to 0 |
| Chips.Chip.ZeroTables | n2t_rust/src/chip/chip.rs:464-484 | The input, output and internal pins are set to 0, table by table, and the sub-chips keep their state |
| Builder.RegistryKeys | n2t_rust/src/chip/builder.rs:163-294 | The registry answers exactly the 32 registered names |
| Builder.RegistryNames | n2t_rust/src/chip/builder.rs:163-294 | The chip a factory makes reports the name it was registered under |
| Builder.RegistryRoundTrip | n2t_rust/src/chip/builder.rs:163-294 | Every builtin chip kind is registered under its own name |
| Builder.BuildBuiltinChip | n2t_rust/src/chip/builder.rs:155-161 | Succeeds exactly for a registered name, with a fresh chip of that name's kind whose pins are exactly `Declared(kind)` appended to the arena; any other name is a Hardware error and changes nothing |
| Builder.CreatePin | n2t_rust/src/chip/builder.rs:53-57 | A fresh LOW bus of the declared width, or 1 wide when none is given, reading 0 |
| Builder.InsertNames | n2t_rust/src/chip/builder.rs:36-39 | Inserting adds the name to the table's names, and every entry afterwards is old or the new one |
| Builder.DeclareInputs | n2t_rust/src/chip/builder.rs:35-39 | The input table's names grow by exactly the declared names, and each new entry is a bus of its declaration's width |
| Builder.DeclareOutputs | n2t_rust/src/chip/builder.rs:41-45 | The same for the output table |
| Builder.DeclareHost | n2t_rust/src/chip/builder.rs:35-45 | The input pins, then the output pins, are created from the declarations: the tables name exactly the declared pins, each a bus of its declared width |
| Builder.CollectedNames | n2t_rust/src/chip/builder.rs:86-111 | A name is collected exactly when a wire mentions it and it is neither a host input or output nor a constant, and each is collected once |
| Builder.KeysHasName | n2t_rust/src/chip/builder.rs:104-107 | A table finds a name exactly when the name is among its keys |
| Builder.CollectInternalPins | n2t_rust/src/chip/builder.rs:86-111 | The collected table has exactly the names of `Collected`, each with a fresh 1-bit bus |
| Builder.InsertAllNew | n2t_rust/src/chip/builder.rs:71-74 | Inserting distinct new names one by one appends them in order |
| Builder.AddInternalPins | n2t_rust/src/chip/builder.rs:71-74 | Each collected pin is inserted as an internal pin |
| Builder.SideResolution | n2t_rust/src/chip/builder.rs:131-153 | A side resolves exactly when it is a literal, a constant name or a host pin; a constant becomes a new constant pin of its level; a host name finds its pin without growing the arena |
| Builder.PartConnectedOk | n2t_rust/src/chip/builder.rs:113-129 | `connect_part` succeeds exactly when every side of every wire resolves on the host |
| Builder.ResolveSides | n2t_rust/src/chip/builder.rs:120-121 | Both sides of one wire are resolved on the host, the from side first, agreeing with `SideResolved` |
| Builder.ConnectWire | n2t_rust/src/chip/builder.rs:119-126 | One wire: resolve both sides, then `from.connect(to)` |
| Builder.ConnectPart | n2t_rust/src/chip/builder.rs:113-129 | The wire loop agrees with `PartConnected` and fails only with a Hardware error |
| Builder.ResolveWireSide | n2t_rust/src/chip/builder.rs:131-153 | Agrees with `SideResolved`, and a failure is a Hardware error that changes nothing |
| Builder.PartsResolvable | n2t_rust/src/chip/builder.rs:59-84 | After the first pass every side of every part resolves on the host |
| Builder.PartWired | n2t_rust/src/chip/builder.rs:77-80 | One part on the arena: its chip's declared pins are allocated, then its wires connected on the host; success needs a registered name, and a failure is a Hardware error |
| Builder.PartsWired | n2t_rust/src/chip/builder.rs:77-81 | The parts in order on the arena; the first failure stops the pass with a Hardware error |
| Builder.PartWiredOk | n2t_rust/src/chip/builder.rs:77-80 | A part whose wires all resolve is wired exactly when its name is registered |
| Builder.PartsWiredOk | n2t_rust/src/chip/builder.rs:77-81 | Parts whose wires all resolve are wired exactly when every name is registered |
| Builder.ConnectBuilt | n2t_rust/src/chip/builder.rs:79 | Once a part's pins are allocated, connecting its wires gives the arena `PartWired` says |
| Builder.InstantiateNext | n2t_rust/src/chip/builder.rs:77-81 | One iteration of the parts loop keeps the loop's progress: one more sub-chip of the next kind, and the arena on its way to `PartsWired` |
| Builder.InstantiatePart | n2t_rust/src/chip/builder.rs:77-81 | Succeeds exactly for a registered part name, appending one sub-chip of that kind; an unknown name adds nothing; the new arena is `PartWired` of the old: the part's pins allocated, then its wires connected |
| Builder.InstantiateParts | n2t_rust/src/chip/builder.rs:76-81 | Succeeds exactly when every part name is registered, with the sub-chips' kinds those of the parts in order; otherwise it stops at the first unknown name with the earlier parts added; on success the new arena is `PartsWired` of the old |
| Builder.AddCollectedPins | n2t_rust/src/chip/builder.rs:59-74 | The internal pins are collected and added, after which every side of every part resolves |
| Builder.BuildParts | n2t_rust/src/chip/builder.rs:59-84 | The internal pins are exactly the collected names as 1-bit buses; then succeeds exactly when every part is registered, adding their kinds in order; on success the arena is `PartsWired` of the arena holding the internal pins |
| Builder.AssembledFrom | n2t_rust/src/chip/builder.rs:28-51 | A chip whose pins were declared and collected from the description, and whose parts are its parts, is laid out from it (`Laid`) |
| Builder.BuildComposite | n2t_rust/src/chip/builder.rs:28-51 | A composite build succeeds exactly when every part is registered, giving a fresh chip assembled from the description, whose arena is its parts wired in order (`PartsWired`) from the arena holding its pins |
| Builder.BuildChip | n2t_rust/src/chip/builder.rs:28-51 | A builtin description is built from the registry exactly when its name is registered; any other gives a composite chip exactly when all parts are registered; errors are Hardware; a builtin build appends exactly the pins its kind declares |

## Left out

- Chips `Nand`, `And`, `Xor`, `And16`, `RAM4K`: they are registered, but their sources (`nand.rs`, `and.rs`, `xor.rs`, `and16.rs`, `ram4k.rs`) are not part of this model. Building one gives a chip with no pins and no behaviour.
- HashMap iteration order is unspecified. Pin tables are sequences, and the internal pins are inserted in the order they are first met. A `reset` therefore zeroes the pins in that order.
- The `name` strings of buses and views, `fmt::Debug`, and the error messages are left out. Only the kind of each error is kept.
- Wiring.Arena.NewInView: a view of width 0 is accepted. The source builds the view's name from `start + width - 1` (subbus.rs:33-40), which underflows `usize` at start 0 and width 0, a panic in a debug build. Names are not modelled, and `PinRange` never gives width 0, so no view of width 0 arises from wiring. The same holds for Wiring.Arena.NewOutView (subbus.rs:141-148).
- Clock subscriptions (`subscribe`, `subscribe_to_clock`, the broadcast channel) are left out. `tick` and `tock` are methods called directly.
- Builder.BuildChip: the `clocked_pins` of an HDL description are unused by the builder, and so are absent from the model. `connect_part` ignores the part's own pins and the wires' ranges, and resolves both sides on the host chip, as the source does. So `Builder.PartWired` allocates a part's declared pins but never connects them: the built sub-chips are not wired to the host.
- Builder.BuildComposite: a part that is itself a composite HDL chip is not looked up. The builder builds parts from the builtin registry only, as the source does.
- Builder.BuildChip: a declared width outside 1..16 is a precondition, because `Bus::new` panics on it.
- Wiring.Arena.NewBus: widths outside 1..16 are a precondition, because `Bus::new` panics on them.
- Clocks.Clock.Tick: overflow of the `u64` tick counter is a precondition (ticks < 2^64 - 1).
- Wiring.Arena.Pull: a view whose parent is borrowed would panic in `borrow_mut`. The model skips the write and reports an error. This only happens inside a nested propagation, whose result the source ignores.
- Wiring.SetV: a write through an `InSubBus` or `OutSubBus` whose parent is already borrowed would panic: in `borrow_mut` for an `InSubBus` (subbus.rs:70), and in the `borrow` of `bus_voltage` for an `OutSubBus` (subbus.rs:189). The model leaves the arena unchanged there and does not model the panic. A top-level write starts with no pin borrowed. The case still arises from a top-level call: inside a propagation, or when `Bus::connect` writes into a view of that same bus (bus.rs:130-136; see `Wiring.Connected`).
- Wiring.Toggled: a toggle through a view whose parent is already borrowed would panic in `borrow_mut` (subbus.rs:122, subbus.rs:264). The model leaves the arena unchanged there and does not model the panic.
- Wiring.Connected: three connections panic in the source, and the model skips the write instead.
  - A connection made through an `InSubBus` whose parent is already borrowed panics in `borrow_mut` (subbus.rs:110). The model leaves the arena unchanged.
  - A bus connected to an `InSubBus` or `OutSubBus` over itself panics, because the view's initial write borrows the bus again (bus.rs:130-136, subbus.rs:70, subbus.rs:189). The model records the view among the bus's driven pins and writes nothing (`Wiring.ConnectOwnView`).
  - An `OutSubBus` connected to its own parent panics: the parent is borrowed mutably, then read by `bus_voltage` (subbus.rs:246-253). The model records the parent among the view's driven pins and writes nothing (`Wiring.ConnectOwnParent`).
  - Neither `Chip::wire` nor `connect_part` makes these connections. `Chip::wire` joins a host pin to a pin of the part, and views over one never cover the other. `connect_part` ignores ranges, so it makes no views.
- Wiring.Arena.SetBusVoltage: its new arena is `SetV`, so it inherits the `Wiring.SetV` gap above for a borrowed parent met during propagation.
- Wiring.Arena.Toggle: its new arena is `Toggled`, so it inherits the `Wiring.Toggled` gap above.
- Wiring.Arena.Connect: its new arena is `Connected`, so it inherits the `Wiring.Connected` gap above.
- Wiring.PullPush: its own contract states only that kinds and widths are kept and borrowed pins are untouched. What it writes is proved by `Wiring.PullLeaves` and `Wiring.PullDrives` for driven buses that drive nothing further; deeper chains of connections are covered for shape only.
- Chips.Refresh: its own contract states only that kinds and widths are kept. What it writes is proved by `Chips.RefreshFanned` for `OutSubBus` views that drive buses driving nothing and do not feed one another, and by `Chips.RefreshIn` for one `InSubBus`. Views that interfere are covered for shape only.
- Chips.EvalAll: its own contract states kinds, widths and one memory per sub-chip. What a part computes on the shared arena is proved for a Not part (`Chips.NotWrites`, `Chips.NotEvaluates`); for the other kinds the writes a part makes are stated by `Builtins.EvalWrites` and its lemmas, on the sampled inputs rather than through the arena.
- Chips.Chip.Make: its own contract states growth and the error kinds. The wiring a connection makes is proved by `Chips.Chip.MakeIntoPlain` and `Chips.Chip.MakeOutOfPlain` for connections without ranges to a host pin that is not a constant; ranged and constant connections are covered for shape only.
- Chips.Chip.MakeAll: the same; `Chips.Chip.MakeAllIntoFirst` and `Chips.Chip.MakeAllOutOfLast` carry the plain cases through the list.
- Chips.Chip.Eval: its contract ties it to `Refresh` and `EvalAll`. What a wired chip's outputs become is proved end to end only for the chip of one Not part (`Chips.Chip.WiredNotInverts`).
- Chips.Chip.Wire: a part must be a builtin chip (`parts` holds `BuiltinChip`s). The source's `wire` and `add_sub_chip` take any `Box<dyn ChipInterface>`, which includes a composite `Chip` (chip.rs:406). Nesting a composite chip as a sub-chip is not modelled.
- Chips.Chip.Resolve: `resolve_pin_side` also allocates a constant bus while validating. Validation only uses its width of 1, so the model does not allocate it there.
- Builtins.Sample: a 1-bit input is read as its raw voltage, as the source reads it. The model does not constrain that voltage to HIGH or LOW.

## Findings

| source | as written | input that shows it | evidently intended | confidence | as-written member | corrected member |
|---|---|---|---|---|---|---|
| n2t_rust/src/chip/bus.rs:182 | `SubBus` computes its mask as `(1 << width) - 1` on a `u16`. At width 16 the shift overflows: a debug build panics, and a release build gives mask 0. | A 16-bit `SubBus` over a bus holding 0: write 0xFFFF through it, then read it back. The read gives 0. | Mask 0xFFFF, so that the write/read round trip holds, as `mask` in subbus.rs does | not executed | LegacySubBus.LegacyRoundTripFails | LegacySubBus.ViewRoundTrip |
