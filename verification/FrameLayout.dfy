/** The places of local variables in the frame (allocate and fill_local_allocations, symbol-table.c). */
module FrameLayout {
  import opened Instructions
  import opened Semantics

  /** A local entry of the symbol table, as far as its place depends on it. */
  datatype LocalEntry = LocalEntry(typ: Type, elementType: Type, isFormal: bool, numElements: nat)

  datatype ByteSize = OneByte | FourBytes

  /** The bytes from `offset` on, counted from the frame pointer. */
  datatype Slot = Slot(offset: int, size: nat)

  /** An entry is found by its bucket and its place in the chain of the bucket. */
  type Key = (nat, nat)

  function ByteSizeOf(t: Type): ByteSize {
    if t == CharType || t == BoolType then OneByte else FourBytes
  }

  function EntrySize(x: LocalEntry): ByteSize {
    ByteSizeOf(if x.typ == ArrayType then x.elementType else x.typ)
  }

  predicate Takes(x: LocalEntry, unit: ByteSize) {
    !x.isFormal && EntrySize(x) == unit
  }

  function Bytes(x: LocalEntry): nat {
    var elements := if x.typ == ArrayType then x.numElements else 1;
    if EntrySize(x) == OneByte then elements else 4 * elements
  }

  predicate IsKey(buckets: seq<seq<LocalEntry>>, k: Key) {
    k.0 < |buckets| && k.1 < |buckets[k.0]|
  }

  function EntryAt(buckets: seq<seq<LocalEntry>>, k: Key): LocalEntry
    requires IsKey(buckets, k)
  {
    buckets[k.0][k.1]
  }

  // ---------------------------------------------------------------- what is needed in all

  function ChainBytes(chain: seq<LocalEntry>, unit: ByteSize, j: nat): nat
    requires j <= |chain|
  {
    if j == 0 then 0
    else ChainBytes(chain, unit, j - 1) + (if Takes(chain[j - 1], unit) then Bytes(chain[j - 1]) else 0)
  }

  function TableBytes(buckets: seq<seq<LocalEntry>>, unit: ByteSize, i: nat): nat
    requires i <= |buckets|
  {
    if i == 0 then 0 else TableBytes(buckets, unit, i - 1) + ChainBytes(buckets[i - 1], unit, |buckets[i - 1]|)
  }

  function Aligned(n: nat): nat {
    if n % 4 != 0 then 4 * (n / 4) + 4 else n
  }

  lemma AlignedMeaning(n: nat)
    ensures Aligned(n) % 4 == 0 && n <= Aligned(n) < n + 4
  {
  }

  // ---------------------------------------------------------------- a sound layout

  /** The slot that ends the first `depth` bytes below the frame pointer. */
  function SlotAt(depth: nat, size: nat): Slot {
    Slot(-(depth as int), size)
  }

  predicate Apart(a: Slot, b: Slot) {
    a.offset + a.size <= b.offset || b.offset + b.size <= a.offset
  }

  /** The slots lie below the frame pointer, within `total` bytes, and do not overlap. */
  ghost predicate Sound(slots: map<Key, Slot>, total: int) {
    && (forall k: Key :: k in slots ==> -total <= slots[k].offset && slots[k].offset + slots[k].size <= 0)
    && (forall k: Key, l: Key :: k in slots && l in slots && k != l ==> Apart(slots[k], slots[l]))
  }

  /** The slots have the sizes of their entries, and those of four-byte entries are aligned. */
  ghost predicate Fits(buckets: seq<seq<LocalEntry>>, slots: map<Key, Slot>) {
    forall k: Key :: k in slots ==>
      && IsKey(buckets, k) && slots[k].size == Bytes(EntryAt(buckets, k))
      && (EntrySize(EntryAt(buckets, k)) == FourBytes ==> slots[k].offset % 4 == 0)
  }

  /** Which entries have slots: those that had before, and those with the given byte size that come before (i, j). */
  ghost predicate Placed(
      buckets: seq<seq<LocalEntry>>, before: set<Key>, unit: ByteSize, i: nat, j: nat, slots: map<Key, Slot>) {
    forall k: Key :: k in slots <==>
      k in before || (IsKey(buckets, k) && Takes(EntryAt(buckets, k), unit) && (k.0 < i || (k.0 == i && k.1 < j)))
  }

  /** The keys are those of entries that the byte size does not concern. */
  ghost predicate OtherSize(buckets: seq<seq<LocalEntry>>, keys: set<Key>, unit: ByteSize) {
    forall k :: k in keys ==> IsKey(buckets, k) && !Takes(EntryAt(buckets, k), unit)
  }

  /** Characters and truth values take one byte each, anything else takes four and starts at a multiple of four. */
  ghost predicate SizedByType(x: LocalEntry, slot: Slot) {
    var t, n := if x.typ == ArrayType then x.elementType else x.typ, if x.typ == ArrayType then x.numElements else 1;
    if t == CharType || t == BoolType then slot.size == n else slot.size == 4 * n && slot.offset % 4 == 0
  }

  ghost predicate AllSized(buckets: seq<seq<LocalEntry>>, slots: map<Key, Slot>) {
    forall k: Key :: k in slots ==> IsKey(buckets, k) && SizedByType(EntryAt(buckets, k), slots[k])
  }

  /** Every element that an array access of the code can address by a subscript in range lies in the slot. */
  lemma ElementsLieInside(x: LocalEntry, slot: Slot, i: nat)
    requires SizedByType(x, slot) && x.typ == ArrayType && i < x.numElements
    requires x.elementType == CharType || x.elementType == IntType
    ensures var address, size := slot.offset + i * ElementSize(x.elementType), ElementSize(x.elementType);
      && slot.offset <= address && address + size <= slot.offset + slot.size
      && (x.elementType == IntType ==> address % 4 == 0)
      && (i == x.numElements - 1 ==> address + size == slot.offset + slot.size)
  {
  }

  lemma FittingIsSized(buckets: seq<seq<LocalEntry>>, slots: map<Key, Slot>)
    requires Fits(buckets, slots)
    ensures AllSized(buckets, slots)
  {
  }

  lemma NewSlotIsSound(slots: map<Key, Slot>, total: nat, k: Key, size: nat)
    requires Sound(slots, total) && k !in slots
    ensures Sound(slots[k := SlotAt(total + size, size)], total + size)
  {
  }

  lemma NewSlotFits(buckets: seq<seq<LocalEntry>>, slots: map<Key, Slot>, k: Key, total: nat)
    requires Fits(buckets, slots) && IsKey(buckets, k)
    requires EntrySize(EntryAt(buckets, k)) == FourBytes ==> total % 4 == 0
    ensures var size := Bytes(EntryAt(buckets, k));
      && Fits(buckets, slots[k := SlotAt(total + size, size)])
      && (EntrySize(EntryAt(buckets, k)) == FourBytes ==> (total + size) % 4 == 0)
  {
  }

  lemma SizeOfEntry(x: LocalEntry, unit: ByteSize)
    ensures Takes(x, unit) <==> !x.isFormal && EntrySize(x) == unit
    ensures Takes(x, unit) ==>
              var numElements := if x.typ == ArrayType then x.numElements else 1;
              Bytes(x) == if unit == OneByte then numElements else 4 * numElements
  {
  }

  /** Placing the entry at (i, j), or passing over it. */
  lemma EntryKeeps(
      buckets: seq<seq<LocalEntry>>, before: set<Key>, unit: ByteSize, i: nat, j: nat, slots: map<Key, Slot>,
      total: nat)
    requires IsKey(buckets, (i, j)) && Sound(slots, total) && Fits(buckets, slots)
    requires Placed(buckets, before, unit, i, j, slots)
    requires OtherSize(buckets, before, unit)
    requires unit == FourBytes ==> total % 4 == 0
    ensures var k, x := (i, j), buckets[i][j];
            if Takes(x, unit) then
              var slots' := slots[k := SlotAt(total + Bytes(x), Bytes(x))];
              && Sound(slots', total + Bytes(x)) && Fits(buckets, slots')
              && Placed(buckets, before, unit, i, j + 1, slots')
              && (unit == FourBytes ==> (total + Bytes(x)) % 4 == 0)
            else Placed(buckets, before, unit, i, j + 1, slots)
  {
    var k, x := (i, j), buckets[i][j];
    assert EntryAt(buckets, k) == x && (Takes(x, unit) ==> k !in slots);
    if Takes(x, unit) {
      NewSlotIsSound(slots, total, k, Bytes(x));
      NewSlotFits(buckets, slots, k, total);
      hide Sound, Fits, Bytes;
    }
  }

  class Frame {
    const buckets: seq<seq<LocalEntry>>
    var slots: map<Key, Slot>

    constructor (buckets: seq<seq<LocalEntry>>)
      ensures this.buckets == buckets && slots == map[]
    {
      this.buckets, slots := buckets, map[];
    }

    /** Places the entries of one byte size below the offset. */
    method Allocate(initialOffset: nat, unit: ByteSize) returns (offset: nat)
      requires Sound(slots, initialOffset) && Fits(buckets, slots)
      requires forall k: Key :: k in slots ==> IsKey(buckets, k) && !Takes(EntryAt(buckets, k), unit)
      requires unit == FourBytes ==> initialOffset % 4 == 0
      modifies this
      ensures offset == initialOffset + TableBytes(buckets, unit, |buckets|)
      ensures Sound(slots, offset) && Fits(buckets, slots)
      ensures Placed(buckets, old(slots.Keys), unit, |buckets|, 0, slots)
      ensures unit == FourBytes ==> offset % 4 == 0
    {
      offset := initialOffset;
      for i := 0 to |buckets|
        invariant offset == initialOffset + TableBytes(buckets, unit, i)
        invariant Sound(slots, offset) && Fits(buckets, slots)
        invariant Placed(buckets, old(slots.Keys), unit, i, 0, slots)
        invariant unit == FourBytes ==> offset % 4 == 0
      {
        offset := AllocateChain(offset, unit, i, old(slots.Keys));
      }
    }

    /** Places the entries of one bucket. */
    method AllocateChain(initialOffset: nat, unit: ByteSize, i: nat, ghost before: set<Key>) returns (offset: nat)
      requires i < |buckets| && Sound(slots, initialOffset) && Fits(buckets, slots)
      requires Placed(buckets, before, unit, i, 0, slots)
      requires forall k: Key :: k in before ==> IsKey(buckets, k) && !Takes(EntryAt(buckets, k), unit)
      requires unit == FourBytes ==> initialOffset % 4 == 0
      modifies this
      ensures offset == initialOffset + ChainBytes(buckets[i], unit, |buckets[i]|)
      ensures Sound(slots, offset) && Fits(buckets, slots)
      ensures Placed(buckets, before, unit, i + 1, 0, slots)
      ensures unit == FourBytes ==> offset % 4 == 0
    {
      offset := initialOffset;
      var j := 0;
      while j < |buckets[i]|
        invariant 0 <= j <= |buckets[i]| && offset == initialOffset + ChainBytes(buckets[i], unit, j)
        invariant Sound(slots, offset) && Fits(buckets, slots)
        invariant Placed(buckets, before, unit, i, j, slots)
        invariant unit == FourBytes ==> offset % 4 == 0
      {
        offset := AllocateEntry(offset, unit, i, j, before);
        j := j + 1;
      }
    }

    /** Places one entry, if it has the byte size. */
    method AllocateEntry(
        initialOffset: nat, unit: ByteSize, i: nat, j: nat, ghost before: set<Key>) returns (offset: nat)
      requires IsKey(buckets, (i, j)) && Sound(slots, initialOffset) && Fits(buckets, slots)
      requires Placed(buckets, before, unit, i, j, slots)
      requires OtherSize(buckets, before, unit)
      requires unit == FourBytes ==> initialOffset % 4 == 0
      modifies this
      ensures offset == initialOffset + (if Takes(buckets[i][j], unit) then Bytes(buckets[i][j]) else 0)
      ensures Sound(slots, offset) && Fits(buckets, slots)
      ensures Placed(buckets, before, unit, i, j + 1, slots)
      ensures unit == FourBytes ==> offset % 4 == 0
    {
      hide Sound, Fits, Placed, OtherSize, Takes, Bytes, EntrySize, SlotAt;
      offset := initialOffset;
      var x := buckets[i][j];
      EntryKeeps(buckets, before, unit, i, j, slots, offset);
      SizeOfEntry(x, unit);
      if !x.isFormal && EntrySize(x) == unit {
        var numElements := if x.typ == ArrayType then x.numElements else 1;
        var size := if unit == OneByte then numElements else 4 * numElements;
        offset := offset + size;
        slots := slots[(i, j) := SlotAt(offset, size)];
      }
    }

    /** Places the one-byte entries, then the others from the next multiple of four on. */
    method FillLocalAllocations() returns (total: nat)
      requires slots == map[]
      modifies this
      ensures Sound(slots, total) && Fits(buckets, slots) && AllSized(buckets, slots)
      ensures forall k: Key :: k in slots <==> IsKey(buckets, k) && !EntryAt(buckets, k).isFormal
      ensures total == Aligned(TableBytes(buckets, OneByte, |buckets|)) + TableBytes(buckets, FourBytes, |buckets|)
      ensures total % 4 == 0
    {
      var offset := Allocate(0, OneByte);
      if offset % 4 != 0 {
        offset := 4 * (offset / 4) + 4;
      }
      AlignedMeaning(TableBytes(buckets, OneByte, |buckets|));
      total := Allocate(offset, FourBytes);
      FittingIsSized(buckets, slots);
    }
  }
}
