// `Memory` (builtins/sequential/memory.rs): the word store behind the RAM,
// ROM and screen builtins. A read past the end gives 0xFFFF and a write
// past the end is dropped.
module Memories {
  import opened Signal

  /** `get(address)` on the words `data`. */
  function Read(data: seq<Word>, address: nat): Word
  {
    if address >= |data| then 0xFFFF else data[address]
  }

  /** The words after `set(address, value)`: value stored in range, the
    * words unchanged out of range (`value & 0xffff` is value on a u16). */
  function Written(data: seq<Word>, address: nat, value: Word): (r: seq<Word>)
    ensures |r| == |data|
  {
    if address < |data| then data[address := value] else data
  }

  /** Reading after a write: the word written at its own address in
    * range, the old contents everywhere else. */
  lemma ReadAfterWrite(data: seq<Word>, a: nat, v: Word, b: nat)
    ensures Read(Written(data, a, v), b) == if a == b && a < |data| then v else Read(data, b)
  {
  }

  /** A second write to the same address replaces the first. */
  lemma WriteTwice(data: seq<Word>, a: nat, u: Word, v: Word)
    ensures Written(Written(data, a, u), a, v) == Written(data, a, v)
  {
  }

  /** Writing back the word just read changes nothing. */
  lemma WriteWhatWasRead(data: seq<Word>, a: nat)
    ensures Written(data, a, Read(data, a)) == data
  {
  }

  /** The words of a memory after `reset` (or when new): all 0. */
  function Zeros(n: nat): (r: seq<Word>)
    ensures |r| == n
  {
    seq(n, _ => 0)
  }

  /** A cleared memory reads 0 in range and 0xFFFF past the end. */
  lemma ReadZeros(n: nat, a: nat)
    ensures Read(Zeros(n), a) == if a < n then 0 else 0xFFFF
  {
  }

  /** `Memory`: `size` words. */
  class Memory {
    var data: seq<Word>
    const size: nat

    predicate Valid()
      reads this
    {
      |data| == size
    }

    /** `Memory::new(size)`: size words of 0. */
    constructor(size: nat)
      ensures Valid() && this.size == size && data == Zeros(size)
    {
      this.size := size;
      data := Zeros(size);
    }

    /** `get(address)`. */
    function Get(address: nat): (w: Word)
      requires Valid()
      reads this
      ensures w == Read(data, address)
      ensures address >= size ==> w == 0xFFFF
    {
      if address >= size then 0xFFFF else data[address]
    }

    /** `set(address, value)`. */
    method Set(address: nat, value: Word)
      requires Valid()
      modifies this
      ensures Valid() && data == Written(old(data), address, value)
    {
      if address < size {
        data := data[address := value];
      }
    }

    /** `reset`: every word back to 0. */
    method Reset()
      requires Valid()
      modifies this
      ensures Valid() && data == Zeros(size)
    {
      data := Zeros(size);
    }

    /** `size()`. */
    function Size(): (n: nat)
      requires Valid()
      reads this
      ensures n == |data|
    {
      size
    }
  }
}
