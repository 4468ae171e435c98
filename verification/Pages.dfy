/** Page table entries: their four bytes, and where the two-level walk looks for them. */
module Pages {
  import opened Common
  import opened Words
  import opened Lanes

  /** An entry; the frame number, the access bits, five flags and the reserved bits. */
  datatype Entry = Entry(
    addr: nat, rwx: nat, dirty: nat, acc: nat, usable: nat, user: nat, phys: nat, present: nat, resvd: nat)

  predicate Flag(n: nat) { n <= 1 }

  /** An entry whose fields fit their bits; the constructor itself insists on the first. */
  predicate InRange(p: Entry) {
    && p.addr <= 0xfffff && p.rwx <= 7 && Flag(p.dirty) && Flag(p.acc) && Flag(p.usable)
    && Flag(p.user) && Flag(p.phys) && Flag(p.present) && p.resvd <= 7
  }

  /** `from_bytes`; fewer than four bytes raise IndexError. */
  function FromBytes(b: seq<Byte>): (r: Option<Entry>)
    ensures r.Some? ==> r.value.addr <= 0xfffff
  {
    if |b| < 4 then None
    else
      var addr := Or(Or(b[0] as int * 0x1000, b[1] as int * 0x10), And(b[2], 0xf0) / 0x10);
      HighNibble(b[2]);
      AddrBound(b[0], b[1], And(b[2], 0xf0) / 0x10);
      Some(Entry(addr, And(b[2], 0xe) / 2, And(b[2], 0x1),
                 And(b[3], 0x80) / 0x80, And(b[3], 0x40) / 0x40, And(b[3], 0x20) / 0x20,
                 And(b[3], 0x10) / 0x10, And(b[3], 0x8) / 0x8, And(b[3], 0x7)))
  }

  /** `to_bytes`: every field masked to its bits, the reserved ones not written. */
  function ToBytes(p: Entry): seq<int>
    requires p.addr <= 0xfffff
  {
    [And(p.addr, 0xff000) / 0x1000,
     And(p.addr, 0x00ff0) / 0x10,
     Or(Or(And(p.addr, 0x0000f) * 0x10, And(p.rwx, 0x7) * 2), And(p.dirty, 0x1)),
     Or(Or(Or(Or(And(p.acc, 0x1) * 0x80, And(p.usable, 0x1) * 0x40), And(p.user, 0x1) * 0x20),
           And(p.phys, 0x1) * 0x10), And(p.present, 0x1) * 0x8)]
  }

  // -------- masks as arithmetic --------

  /** `x & (ones << k)` with n ones. */
  lemma AndField(x: int, k: nat, n: nat)
    requires x >= 0
    ensures And(x, (Pow2(n) - 1) * Pow2(k)) == (x / Pow2(k) % Pow2(n)) * Pow2(k)
  {
    hide And, Pow2;
    var p := Pow2(k);
    AndSplit(x / p, Pow2(n) - 1, x % p, 0, k);
    AndLow(x / p, n);
    AndNothing(x % p);
    assert x / p * p + x % p == x;
  }

  /** A field of a byte or an address, masked out and shifted down. */
  lemma Field(x: int, k: nat, n: nat)
    requires x >= 0
    ensures And(x, (Pow2(n) - 1) * Pow2(k)) / Pow2(k) == x / Pow2(k) % Pow2(n)
  {
    hide And, Pow2;
    AndField(x, k, n);
    var p, q := Pow2(k), x / Pow2(k) % Pow2(n);
    assert q * p == p * q + 0;
    DivideExact(p, q, 0);
  }

  lemma SmallPowers()
    ensures Pow2(0) == 1 && Pow2(1) == 2 && Pow2(2) == 4 && Pow2(3) == 8 && Pow2(4) == 16 && Pow2(5) == 32
    ensures Pow2(6) == 64 && Pow2(7) == 128 && Pow2(10) == 1024 && Pow2(12) == 4096
  {
  }

  lemma HighNibble(b: Byte)
    ensures And(b, 0xf0) / 0x10 == b / 16 && 0 <= b / 16 < 16
  {
    hide And, Pow2;
    SmallPowers();
    Field(b, 4, 4);
  }

  lemma AddrBound(hi: int, mid: int, low: int)
    requires 0 <= hi < 256 && 0 <= mid < 256 && 0 <= low < 16
    ensures Or(Or(hi * 0x1000, mid * 0x10), low) == hi * 0x1000 + mid * 0x10 + low
  {
    hide Or, Pow2;
    SmallPowers();
    OrAdds(hi, mid * 0x10, 12);
    OrAdds(hi * 0x100 + mid, low, 4);
  }

  // -------- the fields of the bytes --------

  /** What an entry read from four bytes holds, in arithmetic. */
  lemma Parsed(b: seq<Byte>)
    requires |b| >= 4
    ensures FromBytes(b) == Some(Entry(
      b[0] as int * 0x1000 + b[1] as int * 0x10 + b[2] / 16, b[2] / 2 % 8, b[2] % 2,
      b[3] / 128 % 2, b[3] / 64 % 2, b[3] / 32 % 2, b[3] / 16 % 2, b[3] / 8 % 2, b[3] % 8))
  {
    hide And, Or, Pow2;
    SmallPowers();
    HighNibble(b[2]);
    AddrBound(b[0], b[1], b[2] / 16);
    Field(b[2], 1, 3);
    Field(b[2], 0, 1);
    Field(b[3], 7, 1);
    Field(b[3], 6, 1);
    Field(b[3], 5, 1);
    Field(b[3], 4, 1);
    Field(b[3], 3, 1);
    Field(b[3], 0, 3);
  }

  /** What printing writes, in arithmetic. */
  lemma Printed(p: Entry)
    requires p.addr <= 0xfffff
    ensures ToBytes(p) == [
      p.addr / 0x1000, p.addr / 0x10 % 0x100, p.addr % 16 * 16 + p.rwx % 8 * 2 + p.dirty % 2,
      p.acc % 2 * 128 + p.usable % 2 * 64 + p.user % 2 * 32 + p.phys % 2 * 16 + p.present % 2 * 8]
  {
    hide And, Or, Pow2;
    SmallPowers();
    Pow2Values();
    Field(p.addr, 12, 8);
    Field(p.addr, 4, 8);
    Field(p.addr, 0, 4);
    Field(p.rwx, 0, 3);
    Bit(p.dirty);
    ThirdByte(p.addr % 16, p.rwx % 8, p.dirty % 2);
    Bit(p.acc);
    Bit(p.usable);
    Bit(p.user);
    Bit(p.phys);
    Bit(p.present);
    FourthByte(p.acc % 2, p.usable % 2, p.user % 2, p.phys % 2, p.present % 2);
  }

  lemma Bit(n: nat)
    ensures And(n, 1) == n % 2
  {
    hide And, Pow2;
    SmallPowers();
    AndLow(n, 1);
  }

  lemma ThirdByte(low: nat, rwx: nat, dirty: nat)
    requires low < 16 && rwx < 8 && dirty < 2
    ensures Or(Or(low * 16, rwx * 2), dirty) == low * 16 + rwx * 2 + dirty
  {
    hide Or, Pow2;
    SmallPowers();
    OrAdds(low, rwx * 2, 4);
    OrAdds(low * 8 + rwx, dirty, 1);
  }

  lemma FourthByte(acc: nat, usable: nat, user: nat, phys: nat, present: nat)
    requires acc < 2 && usable < 2 && user < 2 && phys < 2 && present < 2
    ensures Or(Or(Or(Or(acc * 128, usable * 64), user * 32), phys * 16), present * 8)
         == acc * 128 + usable * 64 + user * 32 + phys * 16 + present * 8
  {
    hide Or, Pow2;
    SmallPowers();
    OrAdds(acc, usable * 64, 7);
    OrAdds(acc * 2 + usable, user * 32, 6);
    OrAdds(acc * 4 + usable * 2 + user, phys * 16, 5);
    OrAdds(acc * 8 + usable * 4 + user * 2 + phys, present * 8, 4);
  }

  /** Printing yields bytes. */
  function Print(p: Entry): (b: seq<Byte>)
    requires p.addr <= 0xfffff
    ensures |b| == 4
  {
    Printed(p);
    ToBytes(p)
  }

  // -------- the codec --------

  /** What comes back from a printed entry. */
  function Narrowed(p: Entry): Entry {
    Entry(p.addr, p.rwx % 8, p.dirty % 2, p.acc % 2, p.usable % 2, p.user % 2, p.phys % 2, p.present % 2, 0)
  }

  lemma ParsePrinted(p: Entry)
    requires p.addr <= 0xfffff
    ensures FromBytes(Print(p)) == Some(Narrowed(p))
  {
    hide FromBytes, ToBytes;
    Printed(p);
    Parsed(Print(p));
    AddrFields(p.addr);
    ThirdFields(p.addr % 16, p.rwx % 8, p.dirty % 2);
    FourthFields(p.acc % 2, p.usable % 2, p.user % 2, p.phys % 2, p.present % 2);
  }

  lemma AddrFields(a: nat)
    ensures a / 0x1000 * 0x1000 + a / 0x10 % 0x100 * 0x10 + a % 16 == a
  {
    assert a / 0x1000 == a / 0x10 / 0x100;
  }

  lemma ThirdFields(low: nat, rwx: nat, dirty: nat)
    requires low < 16 && rwx < 8 && dirty < 2
    ensures var b := low * 16 + rwx * 2 + dirty; b / 16 == low && b / 2 % 8 == rwx && b % 2 == dirty
  {
  }

  lemma FourthFields(acc: nat, usable: nat, user: nat, phys: nat, present: nat)
    requires acc < 2 && usable < 2 && user < 2 && phys < 2 && present < 2
    ensures var b := acc * 128 + usable * 64 + user * 32 + phys * 16 + present * 8;
      && b / 128 % 2 == acc && b / 64 % 2 == usable && b / 32 % 2 == user && b / 16 % 2 == phys
      && b / 8 % 2 == present && b % 8 == 0
  {
  }

  /** Parsing a printed entry gives it back exactly when its fields fit and its reserved bits are
      zero. */
  lemma ParsePrint(p: Entry)
    requires p.addr <= 0xfffff
    ensures FromBytes(Print(p)) == Some(p) <==> InRange(p) && p.resvd == 0
  {
    hide FromBytes, Print;
    ParsePrinted(p);
  }

  /** Printing a parsed word clears its low three bits and nothing else. */
  lemma PrintParse(b: seq<Byte>)
    requires |b| == 4
    ensures FromBytes(b).Some? && Print(FromBytes(b).value) == b[3 := b[3] - b[3] % 8]
  {
    hide FromBytes, ToBytes;
    Parsed(b);
    var p := FromBytes(b).value;
    Printed(p);
    AddrBytes(b[0], b[1], b[2] / 16);
    assert p.addr % 16 * 16 + p.rwx % 8 * 2 + p.dirty % 2 == b[2] by { ThirdBits(b[2]); }
    assert Flags(p) == b[3] - b[3] % 8 by { FlagsSum(b[3]); FlagsTwice(b[3]); }
  }

  function Flags(p: Entry): int {
    p.acc % 2 * 128 + p.usable % 2 * 64 + p.user % 2 * 32 + p.phys % 2 * 16 + p.present % 2 * 8
  }

  lemma FlagsTwice(b: int)
    requires 0 <= b < 256
    ensures b / 128 % 2 % 2 == b / 128 % 2 && b / 64 % 2 % 2 == b / 64 % 2 && b / 32 % 2 % 2 == b / 32 % 2
    ensures b / 16 % 2 % 2 == b / 16 % 2 && b / 8 % 2 % 2 == b / 8 % 2
  {
  }

  lemma AddrBytes(hi: int, mid: int, low: int)
    requires 0 <= hi < 256 && 0 <= mid < 256 && 0 <= low < 16
    ensures var a := hi * 0x1000 + mid * 0x10 + low; a / 0x1000 == hi && a / 0x10 % 0x100 == mid && a % 16 == low
  {
    var a := hi * 0x1000 + mid * 0x10 + low;
    assert a / 0x10 == hi * 0x100 + mid;
  }

  lemma ThirdBits(b: int)
    requires 0 <= b < 256
    ensures b / 16 % 16 * 16 + b / 2 % 8 % 8 * 2 + b % 2 % 2 == b
  {
    assert b / 16 == b / 2 / 8;
  }

  lemma FlagsSum(b: int)
    requires 0 <= b < 256
    ensures b / 128 % 2 * 128 + b / 64 % 2 * 64 + b / 32 % 2 * 32 + b / 16 % 2 * 16 + b / 8 % 2 * 8 == b - b % 8
  {
    assert b / 16 == b / 8 / 2 && b / 32 == b / 16 / 2 && b / 64 == b / 32 / 2 && b / 128 == b / 64 / 2;
  }

  // -------- the walk --------

  /** The walk's two indices. */
  function Level1(addr: int): int { And(addr / 0x1000, 0xffc00) / 0x400 }

  function Level2(addr: int): int { And(addr / 0x1000, 0x003ff) }

  /** The indices are the halves of the page number, and their slots lie within 4096-byte tables. */
  lemma Indices(addr: int)
    requires 0 <= addr < WORD
    ensures Level1(addr) * 0x400 + Level2(addr) == addr / 0x1000
    ensures 0 <= Level1(addr) * 4 && Level1(addr) * 4 + 4 <= 4096
    ensures 0 <= Level2(addr) * 4 && Level2(addr) * 4 + 4 <= 4096
  {
    hide And, Pow2;
    SmallPowers();
    var page := addr / 0x1000;
    Field(page, 10, 10);
    Field(page, 0, 10);
  }

  datatype Walk = BadBase | Unreadable | Found(size: int, entry: Entry)

  /** Bytes of physical memory, none where there is nothing to read. */
  type Memory = nat -> Option<Byte>

  function EntryAt(memory: Memory, a: nat): Option<Entry> {
    var b0, b1, b2, b3 := memory(a), memory(a + 1), memory(a + 2), memory(a + 3);
    if b0.Some? && b1.Some? && b2.Some? && b3.Some? then FromBytes([b0.value, b1.value, b2.value, b3.value]) else None
  }

  /** Where the walk looks: the slot of the first table, then the slot of the table it names. */
  function Slot1(base: nat, addr: nat): nat { base + Level1(addr) * 4 }

  function Slot2(table: nat, addr: nat): nat { table * 0x1000 + Level2(addr) * 4 }

  /** `get_pte`. */
  function GetEntry(memory: Memory, base: nat, addr: nat): Walk {
    if base + 4096 > MAXVAL then BadBase
    else
      var first := EntryAt(memory, Slot1(base, addr));
      if first.None? then Unreadable
      else if first.value.phys != 0 then Found(0x40_0000, first.value)
      else
        var second := EntryAt(memory, Slot2(first.value.addr, addr));
        if second.None? then Unreadable else Found(0x1000, second.value)
  }

  lemma IndicesAre(addr: nat)
    requires addr < WORD
    ensures Level1(addr) == addr / 0x40_0000 && Level2(addr) == addr / 0x1000 % 0x400
  {
    hide Level1, Level2;
    Indices(addr);
  }

  /** The walk, without its indices: the first table has an entry for every 4 MB; one that is `phys` is
      the answer for all of them, any other names the table with an entry for every 4 KB.  A base in
      the last page below 2^32 is refused. */
  lemma WalkMeans(memory: Memory, base: nat, addr: nat)
    requires addr < WORD
    ensures var w := GetEntry(memory, base, addr);
      var first := EntryAt(memory, base + 4 * (addr / 0x40_0000));
      && (w.BadBase? <==> base > 0xffff_efff)
      && (base <= 0xffff_efff && first.Some? && first.value.phys != 0 ==> w == Found(0x40_0000, first.value))
      && (base <= 0xffff_efff && first.Some? && first.value.phys == 0 ==>
            var second := EntryAt(memory, first.value.addr * 0x1000 + 4 * (addr / 0x1000 % 0x400));
            w == if second.Some? then Found(0x1000, second.value) else Unreadable)
      && (base <= 0xffff_efff && first.None? ==> w == Unreadable)
  {
    hide EntryAt, Level1, Level2;
    IndicesAre(addr);
  }

  /** Memory with an entry written at a slot. */
  function WithEntry(memory: Memory, a: nat, p: Entry): Memory
    requires p.addr <= 0xfffff
  {
    (i: nat) => if a <= i < a + 4 then Some(Print(p)[i - a]) else memory(i)
  }

  lemma EntryWritten(memory: Memory, a: nat, p: Entry)
    requires InRange(p) && p.resvd == 0
    ensures EntryAt(WithEntry(memory, a, p), a) == Some(p)
  {
    hide FromBytes, ToBytes;
    ParsePrint(p);
    var b := Print(p);
    assert [b[0], b[1], b[2], b[3]] == b;
  }

  lemma EntryElsewhere(memory: Memory, a: nat, p: Entry, c: nat)
    requires p.addr <= 0xfffff && (c + 4 <= a || a + 4 <= c)
    ensures EntryAt(WithEntry(memory, a, p), c) == EntryAt(memory, c)
  {
    hide FromBytes, ToBytes;
  }

  /** Two slots do not overlap. */
  predicate Clear(a: nat, c: nat) { a + 4 <= c || c + 4 <= a }

  /** A page mapped in a second-level table is found by exactly the addresses of that page, and no
      other address that goes through the same table is affected: the first table, at `base`, names
      the table for this region, and the entry that does is not the one overwritten. */
  lemma MappedPage(memory: Memory, base: nat, addr: nat, p: Entry, other: nat)
    requires addr < WORD && other < WORD && base + 4096 <= MAXVAL && InRange(p) && p.resvd == 0
    requires var first := EntryAt(memory, Slot1(base, addr));
      first.Some? && first.value.phys == 0 && Clear(Slot2(first.value.addr, addr), Slot1(base, addr))
    requires other / 0x40_0000 == addr / 0x40_0000
    ensures var table := EntryAt(memory, Slot1(base, addr)).value.addr;
      GetEntry(WithEntry(memory, Slot2(table, addr), p), base, other)
      == if other / 0x1000 == addr / 0x1000 then Found(0x1000, p) else GetEntry(memory, base, other)
  {
    hide EntryAt, WithEntry, Level1, Level2;
    Indices(addr);
    Indices(other);
    SameRegion(addr, other);
    var table := EntryAt(memory, Slot1(base, addr)).value.addr;
    var a := Slot2(table, addr);
    EntryElsewhere(memory, a, p, Slot1(base, other));
    if other / 0x1000 == addr / 0x1000 {
      EntryWritten(memory, a, p);
    } else {
      EntryElsewhere(memory, a, p, Slot2(table, other));
    }
  }

  lemma SameRegion(addr: nat, other: nat)
    requires addr < WORD && other < WORD && other / 0x40_0000 == addr / 0x40_0000
    ensures Level1(addr) == Level1(other)
    ensures other / 0x1000 == addr / 0x1000 <==> Level2(addr) == Level2(other)
  {
    hide Level1, Level2;
    Indices(addr);
    Indices(other);
    assert addr / 0x1000 / 0x400 == addr / 0x40_0000 && other / 0x1000 / 0x400 == other / 0x40_0000;
  }

  /** A large page mapped in the first table is found by exactly the addresses of its 4 MB, whatever
      stands in the tables below; every other walk is as before, so long as it does not end in the slot
      overwritten. */
  lemma MappedLarge(memory: Memory, base: nat, addr: nat, p: Entry, other: nat)
    requires addr < WORD && other < WORD && base + 4096 <= MAXVAL && InRange(p) && p.resvd == 0 && p.phys != 0
    requires var first := EntryAt(memory, Slot1(base, other));
      first.Some? && first.value.phys == 0 ==> Clear(Slot2(first.value.addr, other), base + 4 * (addr / 0x40_0000))
    ensures GetEntry(WithEntry(memory, base + 4 * (addr / 0x40_0000), p), base, other)
      == if other / 0x40_0000 == addr / 0x40_0000 then Found(0x40_0000, p) else GetEntry(memory, base, other)
  {
    hide EntryAt, WithEntry, Level1, Level2;
    IndicesAre(addr);
    IndicesAre(other);
    var a := base + 4 * (addr / 0x40_0000);
    if other / 0x40_0000 == addr / 0x40_0000 {
      EntryWritten(memory, a, p);
    } else {
      EntryElsewhere(memory, a, p, Slot1(base, other));
      var first := EntryAt(memory, Slot1(base, other));
      if first.Some? && first.value.phys == 0 { EntryElsewhere(memory, a, p, Slot2(first.value.addr, other)); }
    }
  }

  // -------- the cache in front of the walk --------

  /** The page tables as the emulator reads them: memory, the base, and the walks remembered; the most
      recent one is last. */
  class Tables {
    var memory: Memory
    const base: nat
    var entries: seq<(nat, Walk)>

    /** Every walk remembered is what a walk would find now. */
    ghost predicate Coherent()
      reads this
    {
      forall i :: 0 <= i < |entries| ==>
        entries[i].1.Found? && entries[i].1 == GetEntry(memory, base, entries[i].0)
    }

    constructor (memory: Memory, base: nat)
      ensures this.memory == memory && this.base == base && entries == []
    {
      this.memory := memory;
      this.base := base;
      entries := [];
    }

    method Find(addr: nat) returns (i: nat)
      ensures i <= |entries| && (i < |entries| ==> entries[i].0 == addr)
      ensures forall j :: 0 <= j < i ==> entries[j].0 != addr
    {
      i := 0;
      while i < |entries| && entries[i].0 != addr
        invariant i <= |entries|
        invariant forall j :: 0 <= j < i ==> entries[j].0 != addr
      {
        i := i + 1;
      }
    }

    /** The walk, remembered or made; one that raises is not remembered. */
    method GetPte(addr: nat) returns (w: Walk)
      modifies this`entries
      ensures old(Coherent()) ==> Coherent() && w == GetEntry(memory, base, addr)
      ensures w == GetEntry(memory, base, addr) || (addr, w) in old(entries)
      ensures (exists v :: (addr, v) in old(entries)) ==> (addr, w) in old(entries)
      ensures w.Found? ==> |entries| > 0 && entries[|entries| - 1] == (addr, w)
      ensures forall x :: x in entries ==> x in old(entries) || x == (addr, w)
    {
      hide GetEntry;
      var i := Find(addr);
      if i < |entries| {
        w := entries[i].1;
        entries := entries[..i] + entries[i + 1..] + [(addr, w)];
      } else {
        w := GetEntry(memory, base, addr);
        if w.Found? {
          entries := entries + [(addr, w)];
          if |entries| > CACHE_SIZE {
            entries := entries[1..];
          }
        }
      }
    }

    /** An entry stored; what is remembered is left as it was. */
    method Store(slot: nat, p: Entry)
      requires p.addr <= 0xfffff
      modifies this`memory
      ensures memory == WithEntry(old(memory), slot, p)
    {
      memory := WithEntry(memory, slot, p);
    }

    method ClearCache()
      modifies this`entries
      ensures entries == [] && Coherent()
    {
      entries := [];
    }

    /** A page mapped the way the processor does it, with a flush after the store: every walk in the
        region finds the new entry for that page and the old ones elsewhere, whatever was remembered. */
    method Remap(addr: nat, p: Entry, other: nat) returns (w: Walk)
      requires addr < WORD && other < WORD && base + 4096 <= MAXVAL && InRange(p) && p.resvd == 0
      requires var first := EntryAt(memory, Slot1(base, addr));
        first.Some? && first.value.phys == 0 && Clear(Slot2(first.value.addr, addr), Slot1(base, addr))
      requires other / 0x40_0000 == addr / 0x40_0000
      modifies this
      ensures Coherent()
      ensures w == if other / 0x1000 == addr / 0x1000 then Found(0x1000, p) else GetEntry(old(memory), base, other)
    {
      hide GetEntry, EntryAt, WithEntry;
      MappedPage(memory, base, addr, p, other);
      Store(Slot2(EntryAt(memory, Slot1(base, addr)).value.addr, addr), p);
      ClearCache();
      w := GetPte(other);
    }

    /** Without the flush a walk made before goes on being answered. */
    method StaleWalk(addr: nat, slot: nat, p: Entry) returns (before: Walk, after: Walk)
      requires Coherent() && p.addr <= 0xfffff
      modifies this
      ensures before == GetEntry(old(memory), base, addr)
      ensures before.Found? ==> after == before
      ensures !before.Found? ==> after == GetEntry(WithEntry(old(memory), slot, p), base, addr)
    {
      hide GetEntry, WithEntry;
      before := GetPte(addr);
      ghost var seen := entries;
      assert before.Found? ==> (addr, before) in seen;
      assert forall x :: x in seen && x.0 == addr ==> x.1 == before && x.1.Found?;
      Store(slot, p);
      after := GetPte(addr);
    }
  }
}
