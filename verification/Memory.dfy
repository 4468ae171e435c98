/** Physical memory and the caching MMU in front of it, as objects. */
module Storage {
  import opened Common
  import opened Words
  import opened Status
  import opened Machine

  /** Physical memory: RAM, the trap vector page, and what was written to devices. */
  class Memory {
    const ram: array<Byte>
    const vectors: array<Byte>
    var sent: seq<(int, Byte)>

    ghost predicate Valid()
      reads this
    {
      vectors.Length == 4096 && ram != vectors
    }

    ghost function Repr(): set<object> { {this, ram, vectors} }

    /** An image, extended with zeros to a page. */
    constructor (image: seq<Byte>)
      ensures Valid() && fresh(Repr())
      ensures ram[..] == image + seq(if |image| < 4096 then 4096 - |image| else 0, _ => 0)
      ensures vectors[..] == seq(4096, _ => 0) && sent == []
    {
      var padded: seq<Byte> := image + seq(if |image| < 4096 then 4096 - |image| else 0, _ => 0);
      ram := new Byte[|padded|](i requires 0 <= i < |padded| => padded[i]);
      vectors := new Byte[4096](_ => 0);
      sent := [];
      new;
      assert ram[..] == padded;
      assert vectors[..] == seq(4096, _ => 0);
    }

    /** The byte stored for an address that is not a device's. */
    ghost function Cell(addr: int): Byte
      requires Valid()
      reads this, ram, vectors
    {
      if IsVector(addr) then vectors[addr - VECTORS]
      else if 0 <= addr < ram.Length && !IsDevice(addr) && addr < VECTORS then ram[addr]
      else 0
    }

    /** Which addresses have something behind them. */
    predicate Backed(addr: int) {
      IsVector(addr) || IsDevice(addr) || (0 <= addr < ram.Length && addr < VECTORS)
    }

    /** `answer` is what a device, if one is addressed, puts on the bus. */
    method Get(addr: int, answer: Byte) returns (found: bool, b: Byte)
      requires Valid()
      ensures found == Backed(addr)
      ensures found ==> b == if IsDevice(addr) then answer else Cell(addr)
    {
      found, b := true, 0;
      if IsVector(addr) {
        b := vectors[addr - VECTORS];
      } else if IsDevice(addr) {
        b := answer;
      } else if 0 <= addr < ram.Length && addr < VECTORS {
        b := ram[addr];
      } else {
        found := false;
      }
    }

    method Set(addr: int, value: Byte) returns (found: bool)
      requires Valid()
      modifies this, ram, vectors
      ensures Valid()
      ensures found == Backed(addr)
      ensures vectors[..] == if IsVector(addr) then old(vectors[..])[addr - VECTORS := value] else old(vectors[..])
      ensures ram[..] == if found && !IsVector(addr) && !IsDevice(addr) then old(ram[..])[addr := value] else old(ram[..])
      ensures sent == if IsDevice(addr) then old(sent) + [(addr, value)] else old(sent)
    {
      found := true;
      if IsVector(addr) {
        vectors[addr - VECTORS] := value;
      } else if IsDevice(addr) {
        sent := sent + [(addr, value)];
      } else if 0 <= addr < ram.Length && addr < VECTORS {
        ram[addr] := value;
      } else {
        found := false;
      }
    }
  }

  /** The arguments a read is cached under: the address and the access mask, 0 when it was left to
      its default. */
  datatype Key = Key(addr: int, mask: int)

  /** Reads through a least-recently-used cache, with the MMU off.  The most recent entry is last. */
  class Mmu {
    const memory: Memory
    var entries: seq<(Key, Byte)>

    ghost function Repr(): set<object> { {this} + memory.Repr() }

    ghost predicate Valid()
      reads this, memory
    {
      memory.Valid()
    }

    /** Every cached byte of RAM or of the vectors is what memory holds. */
    ghost predicate Coherent()
      requires Valid()
      reads this, memory, memory.ram, memory.vectors
    {
      forall i :: 0 <= i < |entries| ==> Faithful(entries[i])
    }

    ghost predicate Faithful(e: (Key, Byte))
      requires Valid()
      reads this, memory, memory.ram, memory.vectors
    {
      memory.Backed(e.0.addr) && (!IsDevice(e.0.addr) ==> e.1 == memory.Cell(e.0.addr))
    }

    constructor (memory: Memory)
      requires memory.Valid()
      ensures Valid() && this.memory == memory && Coherent() && fresh(this)
      ensures entries == []
    {
      this.memory := memory;
      entries := [];
    }

    /** Where a key is cached; the number of entries when it is not. */
    method Find(key: Key) returns (i: nat)
      ensures i <= |entries|
      ensures i < |entries| ==> entries[i].0 == key
      ensures forall j :: 0 <= j < i ==> entries[j].0 != key
    {
      i := 0;
      while i < |entries| && entries[i].0 != key
        invariant i <= |entries|
        invariant forall j :: 0 <= j < i ==> entries[j].0 != key
      {
        i := i + 1;
      }
    }

    predicate Cached(key: Key)
      reads this
    {
      exists i :: 0 <= i < |entries| && entries[i].0 == key
    }

    /** A cached read.  Off the devices it returns the byte in memory, whatever the cache holds and
        whatever it evicts; a device's byte is returned as it is now unless an older one is cached.
        The cache is asked before the MMU bit: with the MMU on a byte is found only there. */
    method GetAddress(addr: int, mask: int, mmuOn: bool, answer: Byte) returns (found: bool, b: Byte)
      requires Valid() && Coherent()
      modifies this`entries
      ensures Coherent()
      ensures found == (if mmuOn then old(Cached(Key(addr, mask))) else memory.Backed(addr))
      ensures found && !IsDevice(addr) ==> b == memory.Cell(addr)
      ensures found && IsDevice(addr) && !old(Cached(Key(addr, mask))) ==> b == answer
      ensures found && old(Cached(Key(addr, mask))) ==>
        exists i :: 0 <= i < |old(entries)| && old(entries)[i] == (Key(addr, mask), b)
      ensures forall i :: 0 <= i < |entries| ==>
        (found && entries[i] == (Key(addr, mask), b)) || entries[i] in old(entries)
      ensures |old(entries)| <= CACHE_SIZE ==> |entries| <= CACHE_SIZE
      ensures found ==> |entries| > 0 && entries[|entries| - 1] == (Key(addr, mask), b)
    {
      var key := Key(addr, mask);
      var i := Find(key);
      if i < |entries| {
        found, b := true, entries[i].1;
        assert Faithful(entries[i]);
        entries := entries[..i] + entries[i + 1..] + [entries[i]];
      } else if mmuOn {
        found, b := false, 0;
      } else {
        found, b := memory.Get(addr, answer);
        if found {
          entries := entries + [(key, b)];
          if |entries| > CACHE_SIZE {
            entries := entries[1..];
          }
        }
      }
    }

    /** A write goes straight to memory; the cache is left as it was. */
    method WriteAddress(addr: int, value: Byte) returns (found: bool)
      requires Valid()
      modifies memory, memory.ram, memory.vectors
      ensures Valid()
      ensures found == memory.Backed(addr)
      ensures memory.vectors[..] ==
        if IsVector(addr) then old(memory.vectors[..])[addr - VECTORS := value] else old(memory.vectors[..])
      ensures memory.ram[..] ==
        if found && !IsVector(addr) && !IsDevice(addr) then old(memory.ram[..])[addr := value] else old(memory.ram[..])
      ensures memory.sent == if IsDevice(addr) then old(memory.sent) + [(addr, value)] else old(memory.sent)
    {
      found := memory.Set(addr, value);
    }

    method ClearCache()
      requires Valid()
      modifies this`entries
      ensures entries == [] && Coherent()
    {
      entries := [];
    }
  }

  /** Why device reads are not transparent: with nothing stored in between, a device that answers
      `now` and then `later` is heard to answer `now` twice. */
  method StaleRead(addr: int, mask: int, now: Byte, later: Byte) returns (first: Byte, second: Byte)
    requires IsDevice(addr)
    ensures first == now && second == now
  {
    var memory := new Memory([]);
    var mmu := new Mmu(memory);
    var found: bool;
    found, first := mmu.GetAddress(addr, mask, false, now);
    assert mmu.entries[|mmu.entries| - 1] == (Key(addr, mask), first);
    ghost var before := mmu.entries;
    found, second := mmu.GetAddress(addr, mask, false, later);
    assert forall i :: 0 <= i < |before| ==> before[i] == (Key(addr, mask), now);
  }
}
