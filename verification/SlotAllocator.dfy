/** PmemAllocator (mx5x/libcamera/Camera_pmem.cpp): physically contiguous memory cut into slots of one
    size.  Addresses and sizes are 32 bits wide. */
module SlotAllocator {
  import opened Arithmetic
  import opened Wrappers

  const MAX_SLOT := 64
  const DEFAULT_PMEM_ALIGN := 4096

  datatype Buffer = Buffer(virtStart: nat, phyOffset: nat, length: nat)

  // bufSize + 4095 with the low twelve bits cleared, before it is cut to 32 bits.
  function Rounded(bufSize: int): (r: int)
    ensures r % 4096 == 0 && bufSize <= r < bufSize + 4096
  {
    bufSize + DEFAULT_PMEM_ALIGN - 1 - (bufSize + DEFAULT_PMEM_ALIGN - 1) % DEFAULT_PMEM_ALIGN
  }

  // Cutting a rounded size to 32 bits leaves it a multiple of the page.
  lemma Aligned32(bufSize: int)
    ensures ToInt32(Rounded(bufSize)) % DEFAULT_PMEM_ALIGN == 0
    ensures 0 < bufSize <= TWO31 - DEFAULT_PMEM_ALIGN ==> ToInt32(Rounded(bufSize)) == Rounded(bufSize) > 0
  {
  }

  lemma PositiveFactor(a: nat, b: nat)
    ensures a * b >= 0
  {
  }

  function Address(base: nat, size: nat, slot: nat): nat {
    (base + slot * size) % TWO32
  }

  function SlotOf(base: nat, size: nat, address: nat): nat
    requires size > 0
  {
    (address - base) % TWO32 / size
  }

  lemma Quotient(slot: nat, size: nat, value: nat)
    requires size > 0
    ensures value < slot * size ==> value / size < slot
    ensures slot * size <= value < slot * size + size ==> value / size == slot
  {
    var q := value / size;
    assert (slot + 1) * size == slot * size + size && (q + 1) * size == q * size + size;
    assert q * size <= value < (q + 1) * size;
    LessFactor(q, slot, size);
    LessFactor(q, slot + 1, size);
    LessFactor(slot, q + 1, size);
  }

  // The slot of a buffer is recovered from its address exactly if its offset fits 32 bits.
  lemma SlotIsRecovered(base: nat, size: nat, slot: nat)
    requires size > 0
    ensures SlotOf(base, size, Address(base, size, slot)) == slot <==> slot * size < TWO32
  {
    var offset := slot * size;
    ModDifference(base, offset);
    if offset < TWO32 {
      Quotient(slot, size, offset);
    } else {
      Quotient(slot, size, offset % TWO32);
    }
  }

  lemma ModDifference(base: nat, offset: nat)
    ensures ((base + offset) % TWO32 - base) % TWO32 == offset % TWO32
  {
    var k := (base + offset) / TWO32;
    assert (base + offset) % TWO32 - base == offset - k * TWO32;
  }

  // ---- which slot is next ---------------------------------------------------------------------------------

  // The first slot at or after i that is not taken.
  function FirstFree(taken: set<nat>, i: nat): (r: nat)
    requires i <= MAX_SLOT
    ensures i <= r <= MAX_SLOT && (r < MAX_SLOT ==> r !in taken)
    ensures forall k :: i <= k < r ==> k in taken
    decreases MAX_SLOT - i
  {
    if i == MAX_SLOT || i !in taken then i else FirstFree(taken, i + 1)
  }

  function Below(n: nat): (r: set<nat>)
    ensures |r| == n && forall k: nat :: k in r <==> k < n
  {
    if n == 0 then {} else Below(n - 1) + {n - 1}
  }

  // The slot that allocate takes; MAX_SLOT if there is none.
  function Next(taken: set<nat>): nat {
    FirstFree(taken, 0)
  }

  lemma {:induction false} FirstFreeIs(taken: set<nat>, i: nat, index: nat)
    requires i <= index <= MAX_SLOT && (index < MAX_SLOT ==> index !in taken)
    requires forall k: nat :: i <= k < index ==> k in taken
    ensures FirstFree(taken, i) == index
    decreases index - i
  {
    if i == index {
    } else {
      FirstFreeIs(taken, i + 1, index);
    }
  }

  // With fewer than n slots taken, the next one is among the first n; without a free one among the
  // first n, it is not.
  lemma NextIsAmongFirst(taken: set<nat>, n: nat)
    requires n <= MAX_SLOT
    ensures Next(taken) < n <==> !(Below(n) <= taken)
    ensures |taken| < n ==> Next(taken) < n
  {
    var first := Next(taken);
    if first >= n {
      assert forall k :: k in Below(n) ==> 0 <= k < first;
    } else {
      assert first in Below(n);
    }
    if |taken| < n && Below(n) <= taken {
      Subset(Below(n), taken);
    }
  }

  lemma {:induction false} Subset(a: set<nat>, b: set<nat>)
    requires a <= b
    ensures |a| <= |b|
    decreases a
  {
    if a == {} {
    } else {
      var x :| x in a;
      Subset(a - {x}, b - {x});
    }
  }

  // One allocation too many, with fewer buffers than slots in the table, lies past the mapping.
  lemma OneTooMany(taken: set<nat>, count: nat)
    requires count < MAX_SLOT && taken == Below(count)
    ensures Next(taken) == count
  {
    FirstFreeIs(taken, 0, count);
  }

  predicate SlotFits(size: nat, mapped: nat, i: nat) {
    i * size + size <= mapped
  }

  // The length of the mapping is count * size in 32 bits.  All count slots lie in it exactly if that
  // did not wrap around.
  lemma AllSlotsFit(size: nat, count: nat)
    requires 0 < size && 0 < count
    ensures (forall i: nat :: i < count ==> SlotFits(size, count * size % TWO32, i)) <==> count * size < TWO32
  {
    if count * size < TWO32 {
      forall i: nat | i < count ensures SlotFits(size, count * size % TWO32, i) {
        Distribute(i, 1, size);
        MulMono(i + 1, count, size);
      }
    } else {
      Distribute(count - 1, 1, size);
      assert !SlotFits(size, count * size % TWO32, count - 1);
    }
  }

  // ---- any run of calls -------------------------------------------------------------------------------------

  // Where the memory is mapped, and its slot size.
  datatype Memory = Memory(virBase: nat, phyBase: nat, size: nat)

  // The slots the allocator has marked, and the buffers its callers hold.
  datatype Pool = Pool(taken: set<nat>, live: set<Buffer>)

  function BufferAt(m: Memory, slot: nat): Buffer {
    Buffer(Address(m.virBase, m.size, slot), Address(m.phyBase, m.size, slot), m.size)
  }

  // The mapping of count slots does not wrap around; the buffer lies in it.
  predicate Unwrapped(m: Memory, count: int) {
    m.virBase + count * m.size <= TWO32
  }

  predicate Inside(m: Memory, count: int, b: Buffer) {
    m.virBase <= b.virtStart && b.virtStart + b.length <= m.virBase + count * m.size
  }

  function Allocated(m: Memory, p: Pool, size: int): Pool {
    var next := Next(p.taken);
    if size > m.size || next >= MAX_SLOT then p else Pool(p.taken + {next}, p.live + {BufferAt(m, next)})
  }

  function DeAllocated(m: Memory, p: Pool, virtStart: nat): Pool
    requires m.size > 0
  {
    var slot := SlotOf(m.virBase, m.size, virtStart);
    if slot in p.taken then Pool(p.taken - {slot}, set b | b in p.live && b.virtStart != virtStart) else p
  }

  datatype Op = Allocate(size: int) | DeAllocate(virtStart: nat)

  function After(m: Memory, ops: seq<Op>): Pool
    requires m.size > 0
  {
    if ops == [] then Pool({}, {})
    else
      var p := After(m, ops[..|ops| - 1]);
      match ops[|ops| - 1]
      case Allocate(size) => Allocated(m, p, size)
      case DeAllocate(virtStart) => DeAllocated(m, p, virtStart)
  }

  // The first limit slots lie in the 32-bit address space one behind the other.
  predicate Mapped(m: Memory, limit: nat) {
    && 0 < m.size && m.size % DEFAULT_PMEM_ALIGN == 0 && limit <= MAX_SLOT
    && m.virBase % DEFAULT_PMEM_ALIGN == 0 && m.virBase + limit * m.size <= TWO32
    && m.phyBase % DEFAULT_PMEM_ALIGN == 0 && m.phyBase + limit * m.size <= TWO32
  }

  // Callers give back what they hold, and do not ask for another buffer while they hold limit of them.
  ghost predicate Behaves(m: Memory, p: Pool, op: Op, limit: nat)
    requires m.size > 0
  {
    match op
    case Allocate(_) => |p.live| < limit || limit == MAX_SLOT
    case DeAllocate(virtStart) =>
      SlotOf(m.virBase, m.size, virtStart) in p.taken ==> exists b :: b in p.live && b.virtStart == virtStart
  }

  ghost predicate BehaveAll(m: Memory, ops: seq<Op>, limit: nat)
    requires m.size > 0
  {
    forall k :: 0 <= k < |ops| ==> Behaves(m, After(m, ops[..k]), ops[k], limit)
  }

  // The buffers held are those of the taken slots, one each, and all among the first limit.
  ghost predicate Matched(m: Memory, p: Pool, limit: nat)
    requires m.size > 0
  {
    && p.taken <= Below(limit)
    && (forall slot :: slot in p.taken ==> BufferAt(m, slot) in p.live)
    && (forall b :: b in p.live ==>
          var slot := SlotOf(m.virBase, m.size, b.virtStart); slot in p.taken && b == BufferAt(m, slot))
  }

  // A slot among the first limit: its address does not wrap around, and division recovers it.
  lemma InMapping(base: nat, size: nat, slot: nat, limit: nat)
    requires 0 < size && slot < limit && base + limit * size <= TWO32
    ensures Address(base, size, slot) == base + slot * size
    ensures base + slot * size + size <= base + limit * size
    ensures SlotOf(base, size, Address(base, size, slot)) == slot
  {
    MulMono(slot + 1, limit, size);
    Distribute(slot, 1, size);
    assert slot * size < TWO32;
    SlotIsRecovered(base, size, slot);
  }

  lemma {:induction false} AsManyAsSlots(m: Memory, p: Pool, limit: nat)
    requires Mapped(m, limit) && Matched(m, p, limit)
    ensures |p.live| == |p.taken|
    decreases p.taken
  {
    if p.taken == {} {
      assert p.live == {};
    } else {
      var slot :| slot in p.taken;
      var rest := Pool(p.taken - {slot}, p.live - {BufferAt(m, slot)});
      GiveBack(m, p, slot, limit);
      AsManyAsSlots(m, rest, limit);
    }
  }

  lemma GiveBack(m: Memory, p: Pool, slot: nat, limit: nat)
    requires Mapped(m, limit) && Matched(m, p, limit) && slot in p.taken
    ensures Matched(m, Pool(p.taken - {slot}, p.live - {BufferAt(m, slot)}), limit)
  {
    forall s | s in p.taken
      ensures SlotOf(m.virBase, m.size, BufferAt(m, s).virtStart) == s
    {
      InMapping(m.virBase, m.size, s, limit);
    }
  }

  lemma AllocateKeepsMatched(m: Memory, p: Pool, size: int, limit: nat)
    requires Mapped(m, limit) && Matched(m, p, limit) && Behaves(m, p, Allocate(size), limit)
    ensures Matched(m, Allocated(m, p, size), limit)
  {
    var next := Next(p.taken);
    AsManyAsSlots(m, p, limit);
    NextIsAmongFirst(p.taken, limit);
    if next < limit {
      InMapping(m.virBase, m.size, next, limit);
    }
  }

  // deAllocate takes any address inside a slot; the correspondence survives exactly if it is the
  // address of a buffer held, or of no taken slot.
  lemma DeAllocateKeepsMatched(m: Memory, p: Pool, virtStart: nat, limit: nat)
    requires Mapped(m, limit) && Matched(m, p, limit)
    ensures Matched(m, DeAllocated(m, p, virtStart), limit) <==> Behaves(m, p, DeAllocate(virtStart), limit)
  {
    var slot := SlotOf(m.virBase, m.size, virtStart);
    if slot in p.taken {
      var own := BufferAt(m, slot);
      InMapping(m.virBase, m.size, slot, limit);
      GiveBack(m, p, slot, limit);
      forall c | c in p.live && c.virtStart == virtStart
        ensures c == own
      {
      }
      if own.virtStart == virtStart {
        assert (set c | c in p.live && c.virtStart != virtStart) == p.live - {own};
      } else {
        assert own in DeAllocated(m, p, virtStart).live;
      }
    }
  }

  // An address one byte into the only slot taken: the slot is free again, and its buffer still held.
  lemma FreedUnderItsHolder(m: Memory, limit: nat)
    requires Mapped(m, limit) && limit > 0
    ensures var p := After(m, [Allocate(m.size), DeAllocate(m.virBase + 1)]);
      p == Pool({}, {BufferAt(m, 0)}) && !Matched(m, p, limit)
  {
    var ops := [Allocate(m.size), DeAllocate(m.virBase + 1)];
    assert ops[..1] == [Allocate(m.size)] && [Allocate(m.size)][..0] == [];
    FirstFreeIs({}, 0, 0);
    assert After(m, ops[..1]) == Pool({0}, {BufferAt(m, 0)});
    assert SlotOf(m.virBase, m.size, m.virBase + 1) == 0;
    var p := After(m, ops);
    assert BufferAt(m, 0) in p.live;
  }

  // Over any such run the buffers held stay in one-to-one correspondence with the taken slots.
  lemma {:induction false} RunKeepsMatched(m: Memory, ops: seq<Op>, limit: nat)
    requires Mapped(m, limit) && BehaveAll(m, ops, limit)
    ensures Matched(m, After(m, ops), limit)
    decreases |ops|
  {
    if ops == [] {
    } else {
      var before, last := ops[..|ops| - 1], ops[|ops| - 1];
      forall k | 0 <= k < |before|
        ensures Behaves(m, After(m, before[..k]), before[k], limit)
      {
        assert before[..k] == ops[..k] && before[k] == ops[k];
      }
      RunKeepsMatched(m, before, limit);
      assert Behaves(m, After(m, ops[..|before|]), ops[|before|], limit);
      match last {
        case Allocate(size) => AllocateKeepsMatched(m, After(m, before), size, limit);
        case DeAllocate(virtStart) => DeAllocateKeepsMatched(m, After(m, before), virtStart, limit);
      }
    }
  }

  // The bytes of a buffer, in one address space or the other.
  predicate Apart(a: nat, b: nat, size: nat) {
    a + size <= b || b + size <= a
  }

  // Slot ranges are page-aligned, inside the mapping, and disjoint from one another.
  lemma SlotRanges(base: nat, size: nat, i: nat, j: nat, limit: nat)
    requires 0 < size && size % DEFAULT_PMEM_ALIGN == 0 && base % DEFAULT_PMEM_ALIGN == 0
    requires i < limit && j < limit && base + limit * size <= TWO32
    ensures Address(base, size, i) % DEFAULT_PMEM_ALIGN == 0
    ensures base <= Address(base, size, i) && Address(base, size, i) + size <= base + limit * size
    ensures i != j ==> Apart(Address(base, size, i), Address(base, size, j), size)
  {
    InMapping(base, size, i, limit);
    InMapping(base, size, j, limit);
    Distribute(i, 1, size);
    Distribute(j, 1, size);
    if i < j {
      MulMono(i + 1, j, size);
    } else if j < i {
      MulMono(j + 1, i, size);
    }
    Aligned(base, size, i);
  }

  lemma Aligned(base: nat, size: nat, slot: nat)
    requires size % DEFAULT_PMEM_ALIGN == 0 && base % DEFAULT_PMEM_ALIGN == 0
    ensures (base + slot * size) % DEFAULT_PMEM_ALIGN == 0
  {
    var pages, first := size / DEFAULT_PMEM_ALIGN, base / DEFAULT_PMEM_ALIGN;
    assert size == pages * DEFAULT_PMEM_ALIGN && base == first * DEFAULT_PMEM_ALIGN;
    assert slot * size == slot * pages * DEFAULT_PMEM_ALIGN;
    assert base + slot * size == (first + slot * pages) * DEFAULT_PMEM_ALIGN;
  }

  // After any run in which callers give back what they hold and never hold limit buffers when they
  // ask for one, the buffers held lie page-aligned and pairwise disjoint among the first limit slots
  // of the mapping, and the address of each names its slot.
  lemma BuffersAreDisjoint(m: Memory, ops: seq<Op>, limit: nat, a: Buffer, b: Buffer)
    requires Mapped(m, limit) && BehaveAll(m, ops, limit)
    requires a in After(m, ops).live && b in After(m, ops).live
    ensures |After(m, ops).live| == |After(m, ops).taken| && After(m, ops).taken <= Below(limit)
    ensures SlotOf(m.virBase, m.size, a.virtStart) in After(m, ops).taken
    ensures a == BufferAt(m, SlotOf(m.virBase, m.size, a.virtStart)) && a.length == m.size
    ensures a.virtStart % DEFAULT_PMEM_ALIGN == 0 && a.phyOffset % DEFAULT_PMEM_ALIGN == 0
    ensures m.virBase <= a.virtStart && a.virtStart + a.length <= m.virBase + limit * m.size
    ensures m.phyBase <= a.phyOffset && a.phyOffset + a.length <= m.phyBase + limit * m.size
    ensures a != b ==>
      Apart(a.virtStart, b.virtStart, m.size) && Apart(a.phyOffset, b.phyOffset, m.size)
  {
    var p := After(m, ops);
    RunKeepsMatched(m, ops, limit);
    AsManyAsSlots(m, p, limit);
    var i, j := SlotOf(m.virBase, m.size, a.virtStart), SlotOf(m.virBase, m.size, b.virtStart);
    SlotRanges(m.virBase, m.size, i, j, limit);
    SlotRanges(m.phyBase, m.size, i, j, limit);
  }

  // ---- the allocator ------------------------------------------------------------------------------------------

  class PmemAllocator {
    const mBufCount: int
    const mBufSize: int
    const mTotalSize: nat
    const mVirBase: Option<nat>
    const mPhyBase: nat
    const mSlotAllocated: array<bool>

    ghost var live: set<Buffer>      // what the callers hold

    ghost predicate Valid()
      reads this
    {
      && mSlotAllocated.Length == MAX_SLOT
      && (mVirBase.Some? ==>
            && 0 < mBufSize && mBufSize % DEFAULT_PMEM_ALIGN == 0
            && mBufCount <= MAX_SLOT && mTotalSize == mBufSize * mBufCount % TWO32)
    }

    ghost function Taken(): set<nat>
      requires mSlotAllocated.Length == MAX_SLOT
      reads this, mSlotAllocated
    {
      set i: nat | i < MAX_SLOT && mSlotAllocated[i]
    }

    function Map(): Memory
      requires mVirBase.Some? && mBufSize >= 0
      reads this
    {
      Memory(mVirBase.value, mPhyBase, mBufSize)
    }

    ghost function View(): Pool
      requires mSlotAllocated.Length == MAX_SLOT
      reads this, mSlotAllocated
    {
      Pool(Taken(), live)
    }

    // regionLen is what the device offers, mapping the addresses it maps the memory at, if it does.  A
    // size that rounds to zero or less, or past 31 bits, is taken all the same; the slots are of use
    // exactly if it came out positive.
    constructor (bufCount: int, bufSize: int, regionLen: nat, mapping: Option<(nat, nat)>)
      ensures mSlotAllocated.Length == 64 && View() == Pool({}, {}) && fresh(mSlotAllocated)
      ensures mBufCount == bufCount && mBufSize == ToInt32(Rounded(bufSize))
      ensures mVirBase.Some? <==> mBufSize * bufCount % TWO32 <= regionLen && bufCount <= MAX_SLOT && mapping.Some?
      ensures mVirBase.Some? ==> mVirBase.value == mapping.value.0 && mPhyBase == mapping.value.1
      ensures Valid() <==> mVirBase.None? || 0 < mBufSize
      ensures 0 < bufSize <= TWO31 - DEFAULT_PMEM_ALIGN ==> mBufSize == Rounded(bufSize) && Valid()
    {
      var up := bufSize + DEFAULT_PMEM_ALIGN - 1;
      var size := ToInt32(up - up % DEFAULT_PMEM_ALIGN);
      assert size == ToInt32(Rounded(bufSize));
      Aligned32(bufSize);
      var total := size * bufCount % TWO32;
      mBufCount, mBufSize, mTotalSize := bufCount, size, total;
      mSlotAllocated := new bool[MAX_SLOT](_ => false);
      live := {};
      if total > regionLen || bufCount > MAX_SLOT || mapping.None? {
        mVirBase, mPhyBase := None, 0;
      } else {
        mVirBase, mPhyBase := Some(mapping.value.0), mapping.value.1;
      }
    }

    // With fewer than mBufCount slots taken the buffer of the next one lies in the mapping.
    lemma NextInMapping()
      requires Valid() && mVirBase.Some?
      ensures |Taken()| < mBufCount && Unwrapped(Map(), mBufCount) ==>
        Inside(Map(), mBufCount, BufferAt(Map(), Next(Taken())))
    {
      if |Taken()| < mBufCount && Unwrapped(Map(), mBufCount) {
        NextIsAmongFirst(Taken(), mBufCount);
        InMapping(mVirBase.value, mBufSize, Next(Taken()), mBufCount);
        PositiveFactor(Next(Taken()), mBufSize);
      }
    }

    // The buffer of the first free slot.
    method Allocate(size: int) returns (buffer: Option<Buffer>)
      requires Valid()
      modifies this`live, mSlotAllocated
      ensures Valid()
      ensures buffer.Some? <==>
        mVirBase.Some? && size <= mBufSize && exists k: nat :: k < MAX_SLOT && k !in old(Taken())
      ensures buffer.Some? ==> buffer == Some(BufferAt(Map(), Next(old(Taken()))))
      ensures buffer.Some? ==> exists k: nat | k < 64 && k !in old(Taken()) ::
        && (forall j: nat :: j < k ==> j in old(Taken()))
        && buffer.value ==
             Buffer((mVirBase.value + k * mBufSize) % TWO32, (mPhyBase + k * mBufSize) % TWO32, mBufSize)
      ensures View() == if mVirBase.Some? then Allocated(Map(), old(View()), size) else old(View())
      ensures buffer.Some? && |old(Taken())| < mBufCount && Unwrapped(Map(), mBufCount) ==>
        Inside(Map(), mBufCount, buffer.value)
    {
      if mVirBase.None? || size > mBufSize {
        return None;
      }
      NextInMapping();
      var index := FindFree();
      if index == MAX_SLOT {
        return None;
      }
      var taken := Take(index);
      buffer := Some(taken);
    }

    // The loop over the slots.
    method FindFree() returns (index: nat)
      requires Valid()
      ensures index == Next(Taken()) <= MAX_SLOT
      ensures index < MAX_SLOT <==> exists k: nat :: k < MAX_SLOT && k !in Taken()
      ensures index < MAX_SLOT ==> index !in Taken() && forall j: nat :: j < index ==> j in Taken()
    {
      index := 0;
      while index < MAX_SLOT
        invariant index <= MAX_SLOT && forall k: nat :: k < index ==> k in Taken()
      {
        if !mSlotAllocated[index] {
          assert index !in Taken();
          FirstFreeIs(Taken(), 0, index);
          return;
        }
        index := index + 1;
      }
      FirstFreeIs(Taken(), 0, index);
    }

    // Mark the slot and hand out its buffer.
    method Take(index: nat) returns (buffer: Buffer)
      requires Valid() && mVirBase.Some? && index < MAX_SLOT
      modifies this`live, mSlotAllocated
      ensures Valid() && buffer == BufferAt(Map(), index)
      ensures View() == Pool(old(Taken()) + {index}, old(live) + {buffer})
    {
      buffer := Buffer((mVirBase.value + index * mBufSize) % TWO32, (mPhyBase + index * mBufSize) % TWO32, mBufSize);
      mSlotAllocated[index] := true;
      live := live + {buffer};
    }

    method DeAllocate(virtStart: nat) returns (ok: bool)
      requires Valid()
      modifies this`live, mSlotAllocated
      ensures Valid()
      ensures ok <==> mVirBase.Some? && SlotOf(mVirBase.value, mBufSize, virtStart) in old(Taken())
      ensures View() == if mVirBase.Some? then DeAllocated(Map(), old(View()), virtStart) else old(View())
    {
      if mVirBase.None? {
        return false;
      }
      var slot := (virtStart - mVirBase.value) % TWO32 / mBufSize;
      if slot < MAX_SLOT && mSlotAllocated[slot] {
        mSlotAllocated[slot] := false;
        live := set b | b in live && b.virtStart != virtStart;
        return true;
      }
      return false;
    }
  }
}
