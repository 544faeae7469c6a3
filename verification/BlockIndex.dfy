/** The circular index from block numbers to blocks (ImplicitProducer's block index in concurrentqueue.h), with its
    64-bit wrap-around, its slot reuse and its doublings: one producer inserts blocks while any number of consumers
    look them up and free them, one access to shared memory per step. */
module BlockIndices {
  import opened Common
  import opened Modular

  const INITIAL_SIZE: nat := 32
  const INVALID_BLOCK_BASE: nat := 1
  const TWO59: nat := 0x800_0000_0000_0000

  /** A block index entry. `number` is the block number behind the key, kept for the proof: the key is its
      64-bit base index. */
  datatype Slot = Slot(key: nat, value: Option<nat>, number: Option<nat>)

  /** One allocated index: slots point into the pool of entries. `shift` is the block number that slot 0 had,
      or would have had, when the index was built; kept for the proof. */
  datatype Header = Header(capacity: nat, tail: nat, index: seq<nat>, shift: nat)

  /** The producer, by the store it is about to make. Its loads of what only it writes are part of that store. */
  datatype Producer = Ready | StoreKey | Publish | StoreTail | StoreValue

  /** A consumer looking up element `offset` of block `number`, by the load it is about to make: the current
      index, the tail slot of that index, the key at that slot. `Found` holds the entry it arrived at. */
  datatype Lookup =
    | Idle
    | LoadHeader(number: nat, offset: nat)
    | LoadTail(number: nat, offset: nat, header: nat)
    | LoadKey(number: nat, offset: nat, header: nat, tail: nat)
    | Found(number: nat, entry: nat)

  /** All headers ever allocated stay readable; the last one is current. `inserted` counts the entries keyed so
      far; `live` records the blocks stored and not yet freed. */
  datatype State = State(
    entries: seq<Slot>,
    headers: seq<Header>,
    inserted: nat,
    producer: Producer,
    live: map<nat, nat>,
    threads: seq<Lookup>)

  const FREE_SLOT := Slot(INVALID_BLOCK_BASE, None, None)

  function FreeSlots(n: nat): (r: seq<Slot>)
    ensures |r| == n && forall i :: 0 <= i < n ==> r[i] == FREE_SLOT
  {
    seq(n, _ => FREE_SLOT)
  }

  const FIRST_HEADER := Header(INITIAL_SIZE, INITIAL_SIZE - 1, seq(INITIAL_SIZE, (i: nat) => i), 0)

  function Init(threads: nat): State {
    State(FreeSlots(INITIAL_SIZE), [FIRST_HEADER], 0, Ready, map[], seq(threads, _ => Idle))
  }

  predicate InBounds(s: State, h: Header) {
    && 0 < h.capacity == |h.index| && h.tail < h.capacity
    && forall i :: 0 <= i < h.capacity ==> h.index[i] < |s.entries|
  }

  function Current(s: State): Header
    requires s.headers != []
  {
    s.headers[|s.headers| - 1]
  }

  function At(s: State, h: Header, i: nat): Slot
    requires InBounds(s, h) && i < h.capacity
  {
    s.entries[h.index[i]]
  }

  /** `get_block_index_index_for_index`, for a tail slot loaded now or earlier. The signed difference is
      converted to unsigned before it is divided, because the block size is unsigned. */
  function LookupSlot(s: State, h: Header, tail: nat, x: nat): (i: nat)
    requires InBounds(s, h) && tail < h.capacity
    ensures i < h.capacity
  {
    var base := x - x % BLOCK_SIZE;
    var tailBase := At(s, h, tail).key;
    var offset := ((base - tailBase) % TWO64) / BLOCK_SIZE;
    Mod((tail + offset) % TWO64, h.capacity)
  }

  /** The old slots in order of age, oldest first, as `new_block_index` copies them. */
  function Rotated(h: Header): (r: seq<nat>)
    requires 0 < h.capacity == |h.index|
    ensures |r| == h.capacity
    ensures forall i :: 0 <= i < h.capacity ==> r[i] == h.index[Mod(h.tail + 1 + i, h.capacity)]
  {
    seq(h.capacity, i requires 0 <= i < h.capacity => h.index[Mod(h.tail + 1 + i, h.capacity)])
  }

  function FreshIds(start: nat, count: nat): (r: seq<nat>)
    ensures |r| == count && forall i :: 0 <= i < count ==> r[i] == start + i
  {
    seq(count, (i: nat) => start + i)
  }

  /** `new_block_index`: twice the capacity, the old entries first, the tail at the last of them. Nothing of it is
      shared before the store that makes it current. */
  function Grown(s: State): State
    requires s.headers != [] && InBounds(s, Current(s)) && Current(s).capacity <= s.inserted
  {
    var h := Current(s);
    s.(entries := s.entries + FreeSlots(h.capacity),
       headers := s.headers + [Header(2 * h.capacity, h.capacity - 1,
                                      Rotated(h) + FreshIds(|s.entries|, h.capacity), s.inserted - h.capacity)],
       producer := StoreKey)
  }

  /** The slot after the tail, where the next block goes if its entry is free. */
  function NextSlot(h: Header): (i: nat)
    requires 0 < h.capacity
    ensures i < h.capacity
  {
    Mod(h.tail + 1, h.capacity)
  }

  predicate Vacant(e: Slot) {
    e.key == INVALID_BLOCK_BASE || e.value.None?
  }

  function Key(number: nat): nat {
    (number * BLOCK_SIZE) % TWO64
  }

  /** The producer reads the entry of the next slot: re-key it if it is vacant, else double the index. */
  function Begun(s: State): State
    requires s.headers != [] && InBounds(s, Current(s))
  {
    s.(producer := if Vacant(At(s, Current(s), NextSlot(Current(s)))) then StoreKey else Publish)
  }

  /** Re-keys the next slot for the next block number. */
  function Keyed(s: State): State
    requires s.headers != [] && InBounds(s, Current(s))
  {
    var id := Current(s).index[NextSlot(Current(s))];
    s.(entries := s.entries[id := s.entries[id].(key := Key(s.inserted), number := Some(s.inserted))],
       inserted := s.inserted + 1,
       producer := StoreTail)
  }

  function Tailed(s: State): State
    requires s.headers != [] && InBounds(s, Current(s))
  {
    var h := Current(s);
    s.(headers := s.headers[|s.headers| - 1 := h.(tail := NextSlot(h))], producer := StoreValue)
  }

  /** The block is stored in the entry keyed last, and is live from then on. */
  function Filled(s: State, block: nat): State
    requires s.headers != [] && InBounds(s, Current(s)) && s.inserted > 0
  {
    var id := Current(s).index[Current(s).tail];
    s.(entries := s.entries[id := s.entries[id].(value := Some(block))],
       producer := Ready,
       live := s.live[s.inserted - 1 := block])
  }

  /** The consumer that finishes block j clears the entry it found; the key stays. */
  function Cleared(s: State, id: nat, j: nat): State
    requires id < |s.entries|
  {
    s.(entries := s.entries[id := s.entries[id].(value := None)], live := s.live - {j})
  }

  function Goto(s: State, t: nat, pc: Lookup): State
    requires t < |s.threads|
  {
    s.(threads := s.threads[t := pc])
  }

  datatype Step =
    | Begin
    | Produce(block: nat)
    | Look(t: nat, number: nat, offset: nat)
    | Advance(t: nat)
    | Release(t: nat)
    | Free(t: nat)

  predicate LookupInBounds(s: State, t: nat) {
    && t < |s.threads|
    && match s.threads[t]
       case Idle => false
       case LoadHeader(_, _) => s.headers != []
       case LoadTail(_, _, k) => k < |s.headers|
       case LoadKey(_, _, k, tail) => k < |s.headers| && InBounds(s, s.headers[k]) && tail < s.headers[k].capacity
       case Found(_, _) => false
  }

  predicate Concerns(pc: Lookup, j: nat) {
    !pc.Idle? && pc.number == j
  }

  /** A consumer looks up only blocks it has a claim on, so they are live, and a block is freed by the consumer
      that finished its last element, when no other consumer has a claim on it (`Tickets.BlocksFreedOnce`). */
  predicate Enabled(s: State, step: Step) {
    && s.headers != [] && InBounds(s, Current(s))
    && match step
       case Begin => s.producer.Ready?
       case Produce(_) =>
         && !s.producer.Ready?
         && (s.producer.Publish? ==> 2 * Current(s).capacity <= TWO59 && Current(s).capacity <= s.inserted)
         && (s.producer.StoreValue? ==> s.inserted > 0)
       case Look(t, j, r) => t < |s.threads| && s.threads[t].Idle? && j in s.live && r < BLOCK_SIZE
       case Advance(t) => LookupInBounds(s, t)
       case Release(t) => t < |s.threads| && s.threads[t].Found?
       case Free(t) =>
         && t < |s.threads| && s.threads[t].Found? && s.threads[t].entry < |s.entries|
         && forall u :: 0 <= u < |s.threads| && u != t ==> !Concerns(s.threads[u], s.threads[t].number)
  }

  function Produced(s: State, block: nat): State
    requires Enabled(s, Produce(block))
  {
    match s.producer
    case StoreKey => Keyed(s)
    case Publish => Grown(s)
    case StoreTail => Tailed(s)
    case StoreValue => Filled(s, block)
  }

  function Advanced(s: State, t: nat): State
    requires LookupInBounds(s, t)
  {
    match s.threads[t]
    case LoadHeader(j, r) => Goto(s, t, LoadTail(j, r, |s.headers| - 1))
    case LoadTail(j, r, k) => Goto(s, t, LoadKey(j, r, k, s.headers[k].tail))
    case LoadKey(j, r, k, tail) =>
      var h := s.headers[k];
      Goto(s, t, Found(j, h.index[LookupSlot(s, h, tail, (j * BLOCK_SIZE + r) % TWO64)]))
  }

  function Apply(s: State, step: Step): State
    requires Enabled(s, step)
  {
    match step
    case Begin => Begun(s)
    case Produce(block) => Produced(s, block)
    case Look(t, j, r) => Goto(s, t, LoadHeader(j, r))
    case Advance(t) => Advanced(s, t)
    case Release(t) => Goto(s, t, Idle)
    case Free(t) => Goto(Cleared(s, s.threads[t].entry, s.threads[t].number), t, Idle)
  }

  function Next(s: State, step: Step): State {
    if Enabled(s, step) then Apply(s, step) else s
  }

  function Exec(s: State, steps: seq<Step>): State {
    if steps == [] then s else Next(Exec(s, steps[..|steps| - 1]), steps[|steps| - 1])
  }

  // The invariant

  ghost predicate Divides(c: nat, n: nat) {
    0 < c && exists k: nat :: c * k == n
  }

  predicate PowerOfTwo(n: nat) {
    n == 1 || (0 < n && n % 2 == 0 && PowerOfTwo(n / 2))
  }

  ghost predicate EntryInv(e: Slot) {
    && (e.number.None? ==> e.key == INVALID_BLOCK_BASE && e.value.None?)
    && (e.number.Some? ==> e.key == Key(e.number.value))
  }

  /** Slot i of the current index: reached by now or not, and if reached, holding the newest block number of its
      residue class. */
  ghost predicate SlotInv(e: Slot, i: nat, h: Header, inserted: nat)
    requires 0 < h.capacity
  {
    && (e.number.Some? <==> i + h.shift < inserted)
    && (e.number.Some? ==>
          && Mod(e.number.value, h.capacity) == Mod(i + h.shift, h.capacity)
          && inserted - h.capacity <= e.number.value < inserted
          && i + h.shift <= e.number.value)
  }

  /** Slot i of a superseded index: its entry has only ever moved by multiples of the capacity. */
  ghost predicate OldSlotInv(e: Slot, i: nat, h: Header)
    requires 0 < h.capacity
  {
    e.number.Some? && Mod(e.number.value, h.capacity) == Mod(i + h.shift, h.capacity)
  }

  ghost predicate OldHeaderInv(s: State, h: Header) {
    && s.headers != [] && InBounds(s, h) && PowerOfTwo(h.capacity) && h.capacity <= Current(s).capacity
    && forall i: nat :: i < h.capacity ==> OldSlotInv(At(s, h, i), i, h)
  }

  /** How many entries the tail accounts for: between the two stores it is one behind the keys. */
  function Tip(s: State): int {
    if s.producer.StoreTail? then s.inserted - 1 else s.inserted
  }

  ghost predicate CurrentInv(s: State) {
    && s.headers != [] && InBounds(s, Current(s))
    && (var h := Current(s);
        && PowerOfTwo(h.capacity) && h.capacity <= TWO59
        && h.shift <= Tip(s)
        && h.tail == Mod(Tip(s) - 1 - h.shift, h.capacity)
        && (forall i, j :: 0 <= i < j < h.capacity ==> h.index[i] != h.index[j])
        && (forall i: nat :: i < h.capacity ==> SlotInv(At(s, h, i), i, h, s.inserted)))
  }

  /** The live blocks are exactly the occupied entries of the current index. */
  ghost predicate LiveInv(s: State)
    requires CurrentInv(s)
  {
    var h := Current(s);
    && (forall j :: j in s.live ==>
          exists i: nat :: i < h.capacity && At(s, h, i).number == Some(j) && At(s, h, i).value == Some(s.live[j]))
    && (forall i: nat :: i < h.capacity && At(s, h, i).value.Some? ==>
          At(s, h, i).number.Some? && At(s, h, i).number.value in s.live)
  }

  /** What the producer knows of the entry it is working on, whatever consumers do meanwhile. */
  ghost predicate ProducerInv(s: State)
    requires s.headers != [] && InBounds(s, Current(s))
  {
    var h := Current(s);
    var next, tail := At(s, h, NextSlot(h)), At(s, h, h.tail);
    match s.producer
    case Ready => true
    case StoreKey => next.value.None?
    case Publish => next.number.Some?
    case StoreTail => s.inserted > 0 && next.number == Some(s.inserted - 1) && next.value.None?
    case StoreValue => s.inserted > 0 && tail.number == Some(s.inserted - 1) && tail.value.None?
  }

  ghost predicate Reached(h: Header, id: nat) {
    exists i: nat :: i < |h.index| && h.index[i] == id
  }

  /** Everything but the consumers: the entries, the indices, and the pool, all of which the current index reaches. */
  ghost predicate IndexInv(s: State) {
    && (forall i :: 0 <= i < |s.entries| ==> EntryInv(s.entries[i]))
    && CurrentInv(s) && LiveInv(s) && ProducerInv(s)
    && (forall k :: 0 <= k < |s.headers| - 1 ==> OldHeaderInv(s, s.headers[k]))
    && (forall id: nat :: id < |s.entries| ==> Reached(Current(s), id))
  }

  /** The index has an entry for block j. */
  ghost predicate HasEntry(s: State, h: Header, j: nat) {
    InBounds(s, h) && exists i: nat :: i < h.capacity && At(s, h, i).number == Some(j)
  }

  /** A consumer looks for a live block, in an index that has an entry for it, from a slot that has a key. */
  ghost predicate LookupInv(s: State, pc: Lookup) {
    && (!pc.Idle? ==> pc.number in s.live)
    && match pc
       case Idle => true
       case LoadHeader(_, r) => r < BLOCK_SIZE
       case LoadTail(j, r, k) => r < BLOCK_SIZE && k < |s.headers| && HasEntry(s, s.headers[k], j)
       case LoadKey(j, r, k, tail) =>
         && r < BLOCK_SIZE && k < |s.headers| && HasEntry(s, s.headers[k], j)
         && tail < s.headers[k].capacity && At(s, s.headers[k], tail).number.Some?
       case Found(j, id) => id < |s.entries| && s.entries[id].number == Some(j)
  }

  ghost predicate Inv(s: State) {
    IndexInv(s) && forall t :: 0 <= t < |s.threads| ==> LookupInv(s, s.threads[t])
  }

  // The slot computation

  /** 32 times a number, reduced to 64 bits and divided by 32, is the number reduced modulo 2^59. */
  lemma KeyQuotient(d: int)
    ensures ((d * BLOCK_SIZE) % TWO64) / BLOCK_SIZE == Mod(d, TWO59)
  {
    ModUnique(d * BLOCK_SIZE, TWO64, d / TWO59, (d % TWO59) * BLOCK_SIZE);
  }

  lemma KeyDifference(j: int, m: int)
    ensures (((j * BLOCK_SIZE) % TWO64) - ((m * BLOCK_SIZE) % TWO64)) % TWO64 == ((j - m) * BLOCK_SIZE) % TWO64
  {
    var a, b := j * BLOCK_SIZE, m * BLOCK_SIZE;
    assert a % TWO64 - b % TWO64 == (a - b) + TWO64 * (b / TWO64 - a / TWO64);
    ModPlus(a - b, TWO64, b / TWO64 - a / TWO64);
  }

  /** Although the offset is an unsigned quotient near 2^59 for every block older than the tail, the slot is the
      tail slot minus the distance, because the capacity divides 2^59. */
  lemma SlotArithmetic(tail: nat, j: nat, m: nat, capacity: nat)
    requires Divides(capacity, TWO59) && tail < capacity
    ensures Mod((tail + ((Key(j) - Key(m)) % TWO64) / BLOCK_SIZE) % TWO64, capacity) == Mod(tail + j - m, capacity)
  {
    KeyDifference(j, m);
    KeyQuotient(j - m);
    var offset := Mod(j - m, TWO59);
    var k: nat :| capacity * k == TWO59;
    assert capacity * (k * 32) == TWO64;
    ModMod(tail + offset, capacity, k * 32, TWO64);
    ModMod(j - m, capacity, k, TWO59);
    ModShift(offset, j - m, tail, capacity);
  }

  /** The block number behind a 64-bit element index. */
  lemma KeyOfIndex(j: nat, r: nat)
    requires r < BLOCK_SIZE
    ensures var x := (j * BLOCK_SIZE + r) % TWO64; x - x % BLOCK_SIZE == Key(j)
  {
    var q, b := j / TWO59, j % TWO59;
    ModUnique(j * BLOCK_SIZE + r, TWO64, q, b * BLOCK_SIZE + r);
    ModUnique(j * BLOCK_SIZE, TWO64, q, b * BLOCK_SIZE);
  }

  lemma {:induction false} PowersDivide(a: nat, b: nat)
    requires PowerOfTwo(a) && PowerOfTwo(b) && a <= b
    ensures Divides(a, b)
  {
    if a == 1 {
      assert a * b == b;
    } else {
      PowersDivide(a / 2, b / 2);
      var k: nat :| (a / 2) * k == b / 2;
      assert a * k == 2 * ((a / 2) * k);
    }
  }

  lemma {:induction false} PowersMultiply(a: nat, b: nat)
    requires PowerOfTwo(a) && PowerOfTwo(b)
    ensures PowerOfTwo(a * b)
  {
    if a == 1 {
      assert a * b == b;
    } else {
      PowersMultiply(a / 2, b);
      assert a * b == 2 * ((a / 2) * b);
    }
  }

  lemma RangeIsPower()
    ensures PowerOfTwo(TWO59)
  {
    assert PowerOfTwo(2) && PowerOfTwo(4) && PowerOfTwo(8) && PowerOfTwo(16);
    hide PowerOfTwo;
    PowersMultiply(16, 16);
    PowersMultiply(0x100, 0x100);
    PowersMultiply(0x1_0000, 0x1_0000);
    PowersMultiply(0x1_0000_0000, 0x1_0000);
    PowersMultiply(0x1_0000_0000_0000, 0x100);
    PowersMultiply(0x100_0000_0000_0000, 8);
  }

  lemma CapacityDivides(capacity: nat)
    requires PowerOfTwo(capacity) && capacity <= TWO59
    ensures Divides(capacity, TWO59)
  {
    hide PowerOfTwo;
    RangeIsPower();
    PowersDivide(capacity, TWO59);
  }

  /** Lookup from any numbered tail slot lands on the slot of the block's residue class. */
  lemma LookupResidue(s: State, h: Header, tail: nat, j: nat, r: nat)
    requires InBounds(s, h) && PowerOfTwo(h.capacity) && h.capacity <= TWO59 && tail < h.capacity && r < BLOCK_SIZE
    requires EntryInv(At(s, h, tail)) && OldSlotInv(At(s, h, tail), tail, h)
    ensures LookupSlot(s, h, tail, (j * BLOCK_SIZE + r) % TWO64) == Mod(j - h.shift, h.capacity)
  {
    hide PowerOfTwo, Mod, Divides;
    var m := At(s, h, tail).number.value;
    CapacityDivides(h.capacity);
    KeyOfIndex(j, r);
    SlotArithmetic(tail, j, m, h.capacity);
    ModShift(m, tail + h.shift, j - m - h.shift, h.capacity);
  }

  lemma SlotOfNumber(e: Slot, i: nat, h: Header, j: nat)
    requires 0 < h.capacity && i < h.capacity && OldSlotInv(e, i, h) && e.number == Some(j)
    ensures Mod(j - h.shift, h.capacity) == i
  {
    hide Mod;
    var back: int := 0 - h.shift;
    ModShift(j, i + h.shift, back, h.capacity);
    ModSmall(i, h.capacity);
  }

  // The key store

  lemma NextSlotResidue(s: State)
    requires CurrentInv(s) && !s.producer.StoreTail?
    ensures var h := Current(s);
            && NextSlot(h) == Mod(s.inserted - h.shift, h.capacity)
            && Mod(NextSlot(h) + h.shift, h.capacity) == Mod(s.inserted, h.capacity)
            && NextSlot(h) + h.shift <= s.inserted
  {
    hide PowerOfTwo, Mod, SlotInv;
    var h := Current(s);
    ModInner(s.inserted - 1 - h.shift, 1, h.capacity);
    ModAtMost(s.inserted - h.shift, h.capacity);
    ModInner(s.inserted - h.shift, h.shift, h.capacity);
  }

  /** A slot with the residue of the next block number is the next slot. */
  lemma NextSlotUnique(s: State, i: nat)
    requires CurrentInv(s) && !s.producer.StoreTail? && i < Current(s).capacity
    requires Mod(i + Current(s).shift, Current(s).capacity) == Mod(s.inserted, Current(s).capacity)
    ensures i == NextSlot(Current(s))
  {
    NextSlotResidue(s);
    hide PowerOfTwo, Mod, SlotInv, NextSlot, CurrentInv;
    var h := Current(s);
    var back: int := 0 - h.shift;
    ModShift(i + h.shift, s.inserted, back, h.capacity);
    ModSmall(i, h.capacity);
  }

  lemma KeyedSlots(s: State, i: nat)
    requires CurrentInv(s) && !s.producer.StoreTail? && i < Current(s).capacity
    ensures var h := Current(s);
            var e := At(s, h, i);
            SlotInv(if i == NextSlot(h) then Slot(Key(s.inserted), e.value, Some(s.inserted)) else e,
                    i, h, s.inserted + 1)
  {
    hide PowerOfTwo, Mod, Key, NextSlot;
    var h := Current(s);
    NextSlotResidue(s);
    assert SlotInv(At(s, h, i), i, h, s.inserted);
    if i != NextSlot(h) {
      if i + h.shift == s.inserted {
        NextSlotUnique(s, i);
      }
      if At(s, h, i).number.Some? && At(s, h, i).number.value == s.inserted - h.capacity {
        ModPeriod(s.inserted, h.capacity);
        NextSlotUnique(s, i);
      }
    }
  }

  lemma KeyedKeepsCurrent(s: State)
    requires CurrentInv(s) && !s.producer.StoreTail?
    ensures CurrentInv(Keyed(s))
  {
    hide PowerOfTwo, SlotInv, Key, Mod, NextSlot;
    var s', h := Keyed(s), Current(s);
    forall i: nat | i < h.capacity ensures SlotInv(At(s', h, i), i, h, s'.inserted) {
      KeyedSlots(s, i);
    }
  }

  /** The vacated entry of the next slot held the number exactly one capacity earlier, or none. */
  lemma NextSlotHeld(s: State)
    requires CurrentInv(s) && !s.producer.StoreTail?
    ensures var h := Current(s);
            At(s, h, NextSlot(h)).number.Some? ==> At(s, h, NextSlot(h)).number.value == s.inserted - h.capacity
  {
    hide PowerOfTwo, Mod, NextSlot;
    var h := Current(s);
    var e := At(s, h, NextSlot(h));
    NextSlotResidue(s);
    assert SlotInv(e, NextSlot(h), h, s.inserted);
    if e.number.Some? {
      ModPeriod(s.inserted, h.capacity);
      ModWindow(e.number.value, s.inserted - h.capacity, h.capacity);
    }
  }

  lemma KeyedKeepsOld(s: State, h': Header)
    requires CurrentInv(s) && !s.producer.StoreTail? && OldHeaderInv(s, h')
    ensures OldHeaderInv(Keyed(s), h')
  {
    hide PowerOfTwo, Key, Mod, NextSlot, SlotInv;
    var s', h := Keyed(s), Current(s);
    NextSlotHeld(s);
    PowersDivide(h'.capacity, h.capacity);
    var k: nat :| h'.capacity * k == h.capacity;
    ModPlus(s.inserted - h.capacity, h'.capacity, k);
    assert Mod(s.inserted, h'.capacity) == Mod(s.inserted - h.capacity, h'.capacity);
    hide Divides;
    var n := h.index[NextSlot(h)];
    assert s'.entries == s.entries[n := s'.entries[n]] && s'.entries[n].number == Some(s.inserted);
    assert s.entries[n].number.Some? ==> s.entries[n].number.value == s.inserted - h.capacity;
    hide CurrentInv, Keyed;
    forall i: nat | i < h'.capacity ensures OldSlotInv(At(s', h', i), i, h') {
      assert OldSlotInv(At(s, h', i), i, h');
    }
  }

  lemma KeyedKeepsLive(s: State)
    requires IndexInv(s) && s.producer.StoreKey?
    ensures CurrentInv(Keyed(s)) && LiveInv(Keyed(s))
  {
    KeyedKeepsCurrent(s);
    var s', h := Keyed(s), Current(s);
    var n := NextSlot(h);
    hide PowerOfTwo, SlotInv, OldHeaderInv, Mod, Key, NextSlot;
    assert forall i: nat :: i < h.capacity && i != n ==> At(s', h, i) == At(s, h, i);
    forall j | j in s'.live
      ensures exists i: nat ::
                i < h.capacity && At(s', h, i).number == Some(j) && At(s', h, i).value == Some(s'.live[j])
    {
      var i: nat :| i < h.capacity && At(s, h, i).number == Some(j) && At(s, h, i).value == Some(s.live[j]);
      assert i != n;
    }
  }

  lemma KeyNotInvalid(e: Slot)
    requires EntryInv(e)
    ensures e.number.Some? ==> e.key != INVALID_BLOCK_BASE
    ensures Vacant(e) ==> e.value.None?
  {
    if e.number.Some? {
      KeyQuotient(e.number.value);
      KeyOfIndex(e.number.value, 0);
    }
  }

  lemma KeyedKeepsInv(s: State)
    requires IndexInv(s) && s.producer.StoreKey?
    ensures IndexInv(Keyed(s))
  {
    KeyedKeepsLive(s);
    hide PowerOfTwo, SlotInv, OldHeaderInv, LiveInv, Mod, NextSlot;
    var s' := Keyed(s);
    forall k | 0 <= k < |s'.headers| - 1 ensures OldHeaderInv(s', s'.headers[k]) {
      KeyedKeepsOld(s, s.headers[k]);
    }
  }

  // The tail store and the value store

  lemma TailedKeepsInv(s: State)
    requires IndexInv(s) && s.producer.StoreTail?
    ensures IndexInv(Tailed(s))
  {
    hide PowerOfTwo, SlotInv, Mod;
    var s', h := Tailed(s), Current(s);
    var h' := Current(s');
    ModInner(Tip(s) - 1 - h.shift, 1, h.capacity);
    assert forall i: nat :: i < h.capacity ==> At(s', h', i) == At(s, h, i);
    TailedSlots(s);
    hide EntryInv;
    forall k | 0 <= k < |s'.headers| - 1 ensures OldHeaderInv(s', s'.headers[k]) {
      assert OldHeaderInv(s, s.headers[k]);
      SameOldHeader(s, s', s.headers[k]);
    }
    forall id: nat | id < |s'.entries| ensures Reached(h', id) {
      assert Reached(h, id);
    }
  }

  lemma TailedSlots(s: State)
    requires CurrentInv(s)
    ensures var h := Current(s);
            forall i: nat :: i < h.capacity ==> SlotInv(At(s, h, i), i, h.(tail := NextSlot(h)), s.inserted)
  {
    var h := Current(s);
    forall i: nat | i < h.capacity ensures SlotInv(At(s, h, i), i, h.(tail := NextSlot(h)), s.inserted) {
      assert SlotInv(At(s, h, i), i, h, s.inserted);
    }
  }

  /** Values, and the tail of the current index, are no concern of a superseded index. */
  lemma SameOldHeader(s: State, s': State, h: Header)
    requires OldHeaderInv(s, h) && s'.headers != [] && Current(s').capacity >= Current(s).capacity
    requires |s'.entries| == |s.entries|
    requires forall id :: 0 <= id < |s.entries| ==> s'.entries[id].number == s.entries[id].number
    ensures OldHeaderInv(s', h)
  {
    hide PowerOfTwo, Mod;
    forall i: nat | i < h.capacity ensures OldSlotInv(At(s', h, i), i, h) {
      assert OldSlotInv(At(s, h, i), i, h);
    }
  }

  /** Values are no concern of the slots of the current index. */
  lemma SameCurrent(s: State, s': State)
    requires CurrentInv(s) && s'.headers == s.headers && s'.inserted == s.inserted && Tip(s') == Tip(s)
    requires |s'.entries| == |s.entries|
    requires forall id :: 0 <= id < |s.entries| ==> s'.entries[id].number == s.entries[id].number
    ensures CurrentInv(s')
  {
    hide PowerOfTwo, Mod;
    var h := Current(s);
    forall i: nat | i < h.capacity ensures SlotInv(At(s', h, i), i, h, s.inserted) {
      assert SlotInv(At(s, h, i), i, h, s.inserted);
    }
  }

  lemma FilledKeepsLive(s: State, block: nat)
    requires IndexInv(s) && s.producer.StoreValue?
    ensures CurrentInv(Filled(s, block)) && LiveInv(Filled(s, block))
  {
    var s', h := Filled(s, block), Current(s);
    SameCurrent(s, s');
    hide PowerOfTwo, SlotInv, OldHeaderInv, Mod, NextSlot;
    assert forall i: nat :: i < h.capacity && i != h.tail ==> At(s', h, i) == At(s, h, i);
    assert At(s', h, h.tail).number == Some(s.inserted - 1) && At(s', h, h.tail).value == Some(block);
    forall j | j in s'.live
      ensures exists i: nat ::
                i < h.capacity && At(s', h, i).number == Some(j) && At(s', h, i).value == Some(s'.live[j])
    {
      if j != s.inserted - 1 {
        var i: nat :| i < h.capacity && At(s, h, i).number == Some(j) && At(s, h, i).value == Some(s.live[j]);
        assert i != h.tail;
      }
    }
  }

  lemma FilledKeepsInv(s: State, block: nat)
    requires IndexInv(s) && s.producer.StoreValue?
    ensures IndexInv(Filled(s, block))
  {
    FilledKeepsLive(s, block);
    hide PowerOfTwo, SlotInv, LiveInv, Mod, NextSlot, Key, CurrentInv;
    var s' := Filled(s, block);
    forall k | 0 <= k < |s'.headers| - 1 ensures OldHeaderInv(s', s'.headers[k]) {
      assert OldHeaderInv(s, s.headers[k]);
      SameOldHeader(s, s', s.headers[k]);
    }
  }

  lemma BegunKeepsInv(s: State)
    requires IndexInv(s) && s.producer.Ready?
    ensures IndexInv(Begun(s))
  {
    var s', h := Begun(s), Current(s);
    KeyNotInvalid(s.entries[h.index[NextSlot(h)]]);
    SameCurrent(s, s');
    hide PowerOfTwo, SlotInv, Mod, NextSlot, Key, CurrentInv;
    assert forall i: nat :: i < h.capacity ==> At(s', h, i) == At(s, h, i);
    assert LiveInv(s');
    assert EntryInv(s.entries[h.index[NextSlot(h)]]);
    assert ProducerInv(s');
    hide LiveInv, ProducerInv;
    forall k | 0 <= k < |s'.headers| - 1 ensures OldHeaderInv(s', s'.headers[k]) {
      assert OldHeaderInv(s, s.headers[k]);
      SameOldHeader(s, s', s.headers[k]);
    }
  }

  // Doubling

  /** A full circle: when the next slot is occupied every slot has been reached, and the slots hold the last
      `capacity` block numbers in order. */
  lemma FullCircle(s: State, i: nat)
    requires CurrentInv(s) && !s.producer.StoreTail? && i < Current(s).capacity
    requires At(s, Current(s), NextSlot(Current(s))).number.Some?
    ensures var h := Current(s);
            && h.capacity + h.shift <= s.inserted
            && At(s, h, Mod(h.tail + 1 + i, h.capacity)).number == Some(s.inserted - h.capacity + i)
  {
    hide PowerOfTwo, Mod, NextSlot;
    var h := Current(s);
    NextSlotHeld(s);
    assert SlotInv(At(s, h, NextSlot(h)), NextSlot(h), h, s.inserted);
    var o := Mod(h.tail + 1 + i, h.capacity);
    assert SlotInv(At(s, h, o), o, h, s.inserted);
    ModInner(s.inserted - 1 - h.shift, 1 + i, h.capacity);
    ModInner(h.tail + 1 + i, h.shift, h.capacity);
    ModShift(h.tail + 1 + i, s.inserted - h.shift + i, h.shift, h.capacity);
    ModPeriod(s.inserted + i, h.capacity);
    ModWindow(At(s, h, o).number.value, s.inserted - h.capacity + i, h.capacity);
  }

  lemma GrownSlots(s: State, i: nat)
    requires CurrentInv(s) && !s.producer.StoreTail? && At(s, Current(s), NextSlot(Current(s))).number.Some?
    requires Current(s).capacity <= s.inserted && InBounds(Grown(s), Current(Grown(s)))
    requires i < 2 * Current(s).capacity
    ensures SlotInv(At(Grown(s), Current(Grown(s)), i), i, Current(Grown(s)), s.inserted)
  {
    if i < Current(s).capacity {
      FullCircle(s, i);
    }
    hide PowerOfTwo, Mod, NextSlot, CurrentInv;
  }

  lemma RotationDistinct(h: Header, i: nat, j: nat)
    requires 0 < h.capacity && i < j < h.capacity
    ensures Mod(h.tail + 1 + i, h.capacity) != Mod(h.tail + 1 + j, h.capacity)
  {
    hide Mod;
    if Mod(h.tail + 1 + i, h.capacity) == Mod(h.tail + 1 + j, h.capacity) {
      ModWindow(h.tail + 1 + i, h.tail + 1 + j, h.capacity);
    }
  }

  lemma GrownInBounds(s: State)
    requires s.headers != [] && InBounds(s, Current(s)) && Current(s).capacity <= s.inserted
    ensures InBounds(Grown(s), Current(Grown(s)))
  {
    hide Mod;
  }

  lemma GrownDistinct(s: State, i: nat, j: nat)
    requires CurrentInv(s) && Current(s).capacity <= s.inserted && i < j < 2 * Current(s).capacity
    ensures Current(Grown(s)).index[i] != Current(Grown(s)).index[j]
  {
    hide PowerOfTwo, SlotInv, Mod;
    if j < Current(s).capacity {
      RotationDistinct(Current(s), i, j);
    }
  }

  lemma GrownKeepsCurrent(s: State)
    requires CurrentInv(s) && !s.producer.StoreTail? && At(s, Current(s), NextSlot(Current(s))).number.Some?
    requires 2 * Current(s).capacity <= TWO59
    ensures Current(s).capacity <= s.inserted && CurrentInv(Grown(s))
  {
    FullCircle(s, 0);
    assert PowerOfTwo(2 * Current(s).capacity);
    GrownInBounds(s);
    hide PowerOfTwo, SlotInv, Mod, NextSlot, InBounds;
    var s', h := Grown(s), Current(s);
    var h' := Current(s');
    assert s'.inserted - 1 - h'.shift == h.capacity - 1;
    ModSmall(h.capacity - 1, h'.capacity);
    forall i, j | 0 <= i < j < h'.capacity ensures h'.index[i] != h'.index[j] {
      GrownDistinct(s, i, j);
    }
    forall i: nat | i < h'.capacity ensures SlotInv(At(s', h', i), i, h', s'.inserted) {
      GrownSlots(s, i);
    }
  }

  lemma GrownKeepsOld(s: State, k: nat)
    requires IndexInv(s) && s.producer.Publish? && Current(s).capacity <= s.inserted && k < |s.headers|
    ensures OldHeaderInv(Grown(s), s.headers[k])
  {
    FullCircle(s, 0);
    hide PowerOfTwo, LiveInv, Mod, NextSlot;
    var s', h := Grown(s), s.headers[k];
    if k < |s.headers| - 1 {
      assert OldHeaderInv(s, h);
    }
    forall i: nat | i < h.capacity ensures OldSlotInv(At(s', h, i), i, h) {
      assert At(s', h, i) == At(s, h, i);
      if k == |s.headers| - 1 {
        assert SlotInv(At(s, h, i), i, h, s.inserted);
      } else {
        assert OldSlotInv(At(s, h, i), i, h);
      }
    }
  }

  /** Every old slot has a place in the new index. */
  lemma GrownPlace(s: State, o: nat) returns (i: nat)
    requires CurrentInv(s) && Current(s).capacity <= s.inserted && o < Current(s).capacity
    ensures i < Current(s).capacity && Current(Grown(s)).index[i] == Current(s).index[o]
  {
    hide PowerOfTwo, SlotInv, Mod;
    var h := Current(s);
    i := Mod(o - h.tail - 1, h.capacity);
    ModInner(o - h.tail - 1, h.tail + 1, h.capacity);
    ModSmall(o, h.capacity);
  }

  lemma GrownKeepsLive(s: State)
    requires IndexInv(s) && Current(s).capacity <= s.inserted && CurrentInv(Grown(s))
    ensures LiveInv(Grown(s))
  {
    hide PowerOfTwo, SlotInv, OldHeaderInv, EntryInv, Mod, ProducerInv;
    var s', h := Grown(s), Current(s);
    var h' := Current(s');
    forall j | j in s'.live
      ensures exists i: nat ::
                i < h'.capacity && At(s', h', i).number == Some(j) && At(s', h', i).value == Some(s'.live[j])
    {
      var o: nat :| o < h.capacity && At(s, h, o).number == Some(j) && At(s, h, o).value == Some(s.live[j]);
      var i := GrownPlace(s, o);
      assert At(s', h', i) == At(s, h, o);
    }
    forall i: nat | i < h'.capacity && At(s', h', i).value.Some?
      ensures At(s', h', i).number.Some? && At(s', h', i).number.value in s'.live
    {
      if i < h.capacity {
        assert At(s', h', i) == At(s, h, Mod(h.tail + 1 + i, h.capacity));
      }
    }
  }

  lemma GrownReaches(s: State, id: nat)
    requires IndexInv(s) && Current(s).capacity <= s.inserted && id < |Grown(s).entries|
    ensures Reached(Current(Grown(s)), id)
  {
    hide PowerOfTwo, SlotInv, OldHeaderInv, EntryInv, Mod, ProducerInv, LiveInv;
    var h := Current(s);
    if id < |s.entries| {
      assert Reached(h, id);
      var o: nat :| o < |h.index| && h.index[o] == id;
      var i := GrownPlace(s, o);
    } else {
      assert Current(Grown(s)).index[h.capacity + (id - |s.entries|)] == id;
    }
  }

  /** Doubling, although a consumer may have vacated the next slot since the producer found it occupied. The slot
      used after doubling has never been used, as the source asserts. */
  lemma GrownKeepsInv(s: State)
    requires IndexInv(s) && s.producer.Publish? && 2 * Current(s).capacity <= TWO59
    ensures Current(s).capacity <= s.inserted && IndexInv(Grown(s))
    ensures NextSlot(Current(Grown(s))) == Current(s).capacity
    ensures At(Grown(s), Current(Grown(s)), NextSlot(Current(Grown(s)))) == FREE_SLOT
  {
    var h := Current(s);
    GrownKeepsCurrent(s);
    GrownKeepsLive(s);
    ModSmall(h.capacity, 2 * h.capacity);
    var s' := Grown(s);
    assert NextSlot(Current(s')) == h.capacity;
    hide PowerOfTwo, SlotInv, OldHeaderInv, LiveInv, Mod, NextSlot, CurrentInv;
    forall k | 0 <= k < |s'.headers| - 1 ensures OldHeaderInv(s', s'.headers[k]) {
      GrownKeepsOld(s, k);
    }
    forall id: nat | id < |s'.entries| ensures Reached(Current(s'), id) {
      GrownReaches(s, id);
    }
  }

  // Looking up

  /** Any index, current or superseded: numbered slots hold numbers of their own residue class. */
  lemma AnyHeader(s: State, k: nat)
    requires IndexInv(s) && k < |s.headers|
    ensures var h := s.headers[k];
            && InBounds(s, h) && PowerOfTwo(h.capacity) && h.capacity <= TWO59
            && forall i: nat :: i < h.capacity && At(s, h, i).number.Some? ==> OldSlotInv(At(s, h, i), i, h)
  {
    hide PowerOfTwo, Mod, LiveInv, ProducerInv;
    var h := s.headers[k];
    if k < |s.headers| - 1 {
      assert OldHeaderInv(s, h);
    } else {
      forall i: nat | i < h.capacity && At(s, h, i).number.Some? ensures OldSlotInv(At(s, h, i), i, h) {
        assert SlotInv(At(s, h, i), i, h, s.inserted);
      }
    }
  }

  /** The lookup lands on the block's entry from any index that has one, superseded or not, and from any tail slot
      that has a key, loaded now or long ago and re-keyed since. */
  lemma StaleLookup(s: State, k: nat, tail: nat, j: nat, r: nat)
    requires IndexInv(s) && k < |s.headers| && HasEntry(s, s.headers[k], j) && r < BLOCK_SIZE
    requires tail < s.headers[k].capacity && At(s, s.headers[k], tail).number.Some?
    ensures At(s, s.headers[k], LookupSlot(s, s.headers[k], tail, (j * BLOCK_SIZE + r) % TWO64)).number == Some(j)
  {
    AnyHeader(s, k);
    var h := s.headers[k];
    assert EntryInv(s.entries[h.index[tail]]);
    hide PowerOfTwo, Mod, LookupSlot, IndexInv;
    var i: nat :| i < h.capacity && At(s, h, i).number == Some(j);
    LookupResidue(s, h, tail, j, r);
    SlotOfNumber(At(s, h, i), i, h, j);
  }

  /** No two entries have the same number. */
  lemma NumberUnique(s: State, a: nat, b: nat)
    requires IndexInv(s) && a < |s.entries| && b < |s.entries|
    requires s.entries[a].number.Some? && s.entries[a].number == s.entries[b].number
    ensures a == b
  {
    var h, j := Current(s), s.entries[a].number.value;
    assert Reached(h, a) && Reached(h, b);
    AnyHeader(s, |s.headers| - 1);
    hide PowerOfTwo, Mod, IndexInv;
    var x: nat :| x < |h.index| && h.index[x] == a;
    var y: nat :| y < |h.index| && h.index[y] == b;
    SlotOfNumber(At(s, h, x), x, h, j);
    SlotOfNumber(At(s, h, y), y, h, j);
  }

  /** The entry with the number of a live block holds the block. */
  lemma LiveValue(s: State, id: nat, j: nat)
    requires IndexInv(s) && id < |s.entries| && s.entries[id].number == Some(j) && j in s.live
    ensures s.entries[id].value == Some(s.live[j])
  {
    var h := Current(s);
    var i: nat :| i < h.capacity && At(s, h, i).number == Some(j) && At(s, h, i).value == Some(s.live[j]);
    hide PowerOfTwo, Mod, IndexInv;
    NumberUnique(s, id, h.index[i]);
  }

  /** While a block is live the current tail slot has a key, even between the two stores of an insertion. */
  lemma TailNumbered(s: State, j: nat)
    requires IndexInv(s) && j in s.live
    ensures At(s, Current(s), Current(s).tail).number.Some? && HasEntry(s, Current(s), j)
  {
    hide PowerOfTwo, Mod, NextSlot, OldHeaderInv, EntryInv;
    var h := Current(s);
    var i: nat :| i < h.capacity && At(s, h, i).number == Some(j) && At(s, h, i).value == Some(s.live[j]);
    assert SlotInv(At(s, h, i), i, h, s.inserted) && SlotInv(At(s, h, h.tail), h.tail, h, s.inserted);
    assert h.tail == Mod(Tip(s) - 1 - h.shift, h.capacity) && ProducerInv(s);
    if s.producer.StoreTail? && j == s.inserted - 1 {
      LiveValue(s, h.index[NextSlot(h)], j);
    }
    hide IndexInv;
    ModAtMost(Tip(s) - 1 - h.shift, h.capacity);
  }

  // What consumers can rely on

  /** What no step takes away: a number stays a number, the entry of a block that stays live keeps it, and an index
      that was published stays as it is but for its tail. */
  ghost predicate Keeps(s: State, s': State) {
    && |s.entries| <= |s'.entries| && |s.headers| <= |s'.headers|
    && (forall id :: 0 <= id < |s.entries| && s.entries[id].number.Some? ==> s'.entries[id].number.Some?)
    && (forall id, j :: 0 <= id < |s.entries| && s.entries[id].number == Some(j) && j in s.live ==>
          s'.entries[id].number == Some(j))
    && (forall k :: 0 <= k < |s.headers| ==> s'.headers[k] == s.headers[k].(tail := s'.headers[k].tail))
  }

  lemma HasEntryKept(s: State, s': State, k: nat, j: nat)
    requires IndexInv(s') && Keeps(s, s') && j in s.live && k < |s.headers| && HasEntry(s, s.headers[k], j)
    ensures HasEntry(s', s'.headers[k], j)
  {
    AnyHeader(s', k);
    hide PowerOfTwo, Mod, IndexInv;
    var h := s.headers[k];
    var i: nat :| i < h.capacity && At(s, h, i).number == Some(j);
    assert At(s', s'.headers[k], i).number == Some(j);
  }

  lemma LookupKept(s: State, s': State, pc: Lookup)
    requires IndexInv(s') && Keeps(s, s') && LookupInv(s, pc) && (!pc.Idle? ==> pc.number in s'.live)
    ensures LookupInv(s', pc)
  {
    hide PowerOfTwo, Mod, IndexInv, HasEntry;
    if pc.LoadTail? || pc.LoadKey? {
      HasEntryKept(s, s', pc.header, pc.number);
      HasEntryBounds(s, s.headers[pc.header], pc.number);
      HasEntryBounds(s', s'.headers[pc.header], pc.number);
    }
  }

  lemma HasEntryBounds(s: State, h: Header, j: nat)
    requires HasEntry(s, h, j)
    ensures InBounds(s, h)
  {
  }

  /** A step that keeps the index and what consumers rely on keeps everything. */
  lemma ThreadsKept(s: State, s': State)
    requires Inv(s) && IndexInv(s') && Keeps(s, s') && s'.threads == s.threads
    requires forall j :: j in s.live ==> j in s'.live
    ensures Inv(s')
  {
    hide IndexInv, Keeps, LookupInv;
    forall t | 0 <= t < |s'.threads| ensures LookupInv(s', s'.threads[t]) {
      LiveNumber(s, s.threads[t]);
      LookupKept(s, s', s.threads[t]);
    }
  }

  lemma LiveNumber(s: State, pc: Lookup)
    requires LookupInv(s, pc)
    ensures !pc.Idle? ==> pc.number in s.live
  {
  }

  lemma ProduceKeeps(s: State, block: nat)
    requires IndexInv(s) && Enabled(s, Produce(block))
    ensures Keeps(s, Produced(s, block))
  {
    hide PowerOfTwo, Mod, OldHeaderInv, SlotInv, Key;
    if s.producer.StoreKey? {
      var n := Current(s).index[NextSlot(Current(s))];
      if s.entries[n].number.Some? && s.entries[n].number.value in s.live {
        LiveValue(s, n, s.entries[n].number.value);
      }
    }
  }

  lemma ProduceKeepsInv(s: State, block: nat)
    requires IndexInv(s) && Enabled(s, Produce(block))
    ensures IndexInv(Produced(s, block))
  {
    hide IndexInv, Keyed, Grown, Tailed, Filled;
    match s.producer
    case StoreKey => KeyedKeepsInv(s);
    case Publish => GrownKeepsInv(s);
    case StoreTail => TailedKeepsInv(s);
    case StoreValue => FilledKeepsInv(s, block);
  }

  lemma ProducerStep(s: State, block: nat)
    requires Inv(s)
    ensures Enabled(s, Begin) ==> Inv(Begun(s))
    ensures Enabled(s, Produce(block)) ==> Inv(Produced(s, block))
  {
    if Enabled(s, Begin) {
      BegunKeepsInv(s);
      assert Keeps(s, Begun(s));
      ThreadsKept(s, Begun(s));
    }
    if Enabled(s, Produce(block)) {
      ProduceKeepsInv(s, block);
      ProduceKeeps(s, block);
      ThreadsKept(s, Produced(s, block));
    }
    hide *;
  }

  // Freeing and looking up as steps

  lemma ClearedKeepsLive(s: State, id: nat, j: nat)
    requires IndexInv(s) && id < |s.entries| && s.entries[id].number == Some(j)
    ensures CurrentInv(Cleared(s, id, j)) && LiveInv(Cleared(s, id, j))
  {
    var s', h := Cleared(s, id, j), Current(s);
    SameCurrent(s, s');
    hide PowerOfTwo, Mod, OldHeaderInv, ProducerInv, SlotInv;
    forall m | m in s'.live
      ensures exists i: nat ::
                i < h.capacity && At(s', h, i).number == Some(m) && At(s', h, i).value == Some(s'.live[m])
    {
      var i: nat :| i < h.capacity && At(s, h, i).number == Some(m) && At(s, h, i).value == Some(s.live[m]);
      assert At(s', h, i) == At(s, h, i);
    }
    forall i: nat | i < h.capacity && At(s', h, i).value.Some?
      ensures At(s', h, i).number.Some? && At(s', h, i).number.value in s'.live
    {
      assert h.index[i] != id && At(s', h, i) == At(s, h, i);
      if At(s, h, i).number == Some(j) {
        NumberUnique(s, h.index[i], id);
      }
    }
  }

  lemma ClearedKeepsInv(s: State, id: nat, j: nat)
    requires IndexInv(s) && id < |s.entries| && s.entries[id].number == Some(j)
    ensures IndexInv(Cleared(s, id, j)) && Keeps(s, Cleared(s, id, j))
  {
    ClearedKeepsLive(s, id, j);
    hide PowerOfTwo, LiveInv, Mod, NextSlot, Key, CurrentInv;
    var s' := Cleared(s, id, j);
    forall k | 0 <= k < |s'.headers| - 1 ensures OldHeaderInv(s', s'.headers[k]) {
      assert OldHeaderInv(s, s.headers[k]);
      SameOldHeader(s, s', s.headers[k]);
    }
  }

  lemma FreeStep(s: State, t: nat)
    requires Inv(s) && Enabled(s, Free(t))
    ensures Inv(Apply(s, Free(t)))
  {
    var j, id := s.threads[t].number, s.threads[t].entry;
    assert LookupInv(s, s.threads[t]);
    ClearedKeepsInv(s, id, j);
    var s1 := Cleared(s, id, j);
    forall u | 0 <= u < |s.threads| && u != t ensures LookupInv(s1, s.threads[u]) {
      LookupKept(s, s1, s.threads[u]);
    }
    hide Keeps, Cleared;
    GotoKeepsInv(s1, t, Idle);
  }

  lemma SameIndex(s: State, s': State)
    requires s' == s.(threads := s'.threads) && IndexInv(s)
    ensures IndexInv(s')
  {
    SameCurrent(s, s');
    assert forall i: nat :: i < Current(s).capacity ==> At(s', Current(s), i) == At(s, Current(s), i);
    hide PowerOfTwo, Mod, NextSlot, Key, CurrentInv;
    forall k | 0 <= k < |s.headers| - 1 ensures OldHeaderInv(s', s.headers[k]) {
      assert OldHeaderInv(s, s.headers[k]);
      SameOldHeader(s, s', s.headers[k]);
    }
  }

  lemma GotoKeepsInv(s: State, t: nat, pc: Lookup)
    requires IndexInv(s) && t < |s.threads| && LookupInv(s, pc)
    requires forall u :: 0 <= u < |s.threads| && u != t ==> LookupInv(s, s.threads[u])
    ensures Inv(Goto(s, t, pc))
  {
    var s' := Goto(s, t, pc);
    SameIndex(s, s');
    assert Keeps(s, s');
    hide IndexInv, LookupInv, Keeps;
    forall u | 0 <= u < |s'.threads| ensures LookupInv(s', s'.threads[u]) {
      LiveNumber(s, s'.threads[u]);
      LookupKept(s, s', s'.threads[u]);
    }
  }

  lemma AdvanceStep(s: State, t: nat)
    requires Inv(s) && Enabled(s, Advance(t))
    ensures Inv(Advanced(s, t))
  {
    var pc := s.threads[t];
    assert LookupInv(s, pc);
    AdvancedLookup(s, t);
    GotoKeepsInv(s, t, Advanced(s, t).threads[t]);
    hide IndexInv, LookupInv;
  }

  lemma AdvancedLookup(s: State, t: nat)
    requires IndexInv(s) && LookupInBounds(s, t) && LookupInv(s, s.threads[t])
    ensures LookupInv(s, Advanced(s, t).threads[t])
  {
    hide PowerOfTwo, Mod, IndexInv, LookupSlot;
    match s.threads[t]
    case LoadHeader(j, r) => TailNumbered(s, j);
    case LoadTail(j, r, k) => LoadedTailNumbered(s, k, j);
    case LoadKey(j, r, k, tail) => StaleLookup(s, k, tail, j, r);
  }

  /** The tail slot of the current index has a key, and so has every slot of a superseded one. */
  lemma LoadedTailNumbered(s: State, k: nat, j: nat)
    requires IndexInv(s) && j in s.live && k < |s.headers|
    ensures InBounds(s, s.headers[k]) && At(s, s.headers[k], s.headers[k].tail).number.Some?
  {
    TailNumbered(s, j);
    if k < |s.headers| - 1 {
      assert OldHeaderInv(s, s.headers[k]);
      assert OldSlotInv(At(s, s.headers[k], s.headers[k].tail), s.headers[k].tail, s.headers[k]);
    }
  }

  // Every run

  lemma NextKeepsInv(s: State, step: Step)
    requires Inv(s)
    ensures Inv(Next(s, step)) && |Next(s, step).threads| == |s.threads|
  {
    if !Enabled(s, step) {
      return;
    }
    match step
    case Begin => ProducerStep(s, 0);
    case Produce(block) => ProducerStep(s, block);
    case Look(t, j, r) => GotoKeepsInv(s, t, LoadHeader(j, r));
    case Advance(t) => AdvanceStep(s, t);
    case Release(t) => GotoKeepsInv(s, t, Idle);
    case Free(t) => FreeStep(s, t);
    hide Inv, IndexInv, LookupInv, Begun, Produced, Advanced, Enabled;
  }

  lemma {:induction false} InvInEveryRun(threads: nat, steps: seq<Step>)
    ensures Inv(Exec(Init(threads), steps)) && |Exec(Init(threads), steps).threads| == threads
  {
    if steps == [] {
      InitInv(threads);
      return;
    }
    hide Inv, Next, Init;
    InvInEveryRun(threads, steps[..|steps| - 1]);
    NextKeepsInv(Exec(Init(threads), steps[..|steps| - 1]), steps[|steps| - 1]);
  }

  lemma InitInv(threads: nat)
    ensures Inv(Init(threads))
  {
    assert PowerOfTwo(INITIAL_SIZE);
    var s := Init(threads);
    forall id: nat | id < |s.entries| ensures Reached(Current(s), id) {
      assert Current(s).index[id] == id;
    }
  }

  /** The index is a correct circular map: in every run of insertions, doublings, lookups and frees, however their
      loads and stores interleave, a consumer that looked up an element of a block has arrived at the entry keyed
      with the block's base, and the entry holds the block. */
  lemma LookupCorrectInEveryRun(threads: nat, steps: seq<Step>, t: nat)
    requires t < |Exec(Init(threads), steps).threads| && Exec(Init(threads), steps).threads[t].Found?
    ensures var s := Exec(Init(threads), steps);
            var (j, id) := (s.threads[t].number, s.threads[t].entry);
            && j in s.live && id < |s.entries|
            && s.entries[id].key == Key(j) && s.entries[id].value == Some(s.live[j])
  {
    InvInEveryRun(threads, steps);
    var s := Exec(Init(threads), steps);
    assert LookupInv(s, s.threads[t]);
    assert EntryInv(s.entries[s.threads[t].entry]);
    LiveValue(s, s.threads[t].entry, s.threads[t].number);
  }

  /** In every run a lookup can always take its next step, and the key it loads at the tail is a real one, as the
      source asserts. */
  lemma LookupNeverStuck(threads: nat, steps: seq<Step>, t: nat)
    requires t < |Exec(Init(threads), steps).threads|
    ensures var s := Exec(Init(threads), steps);
            var pc := s.threads[t];
            && (!pc.Idle? && !pc.Found? ==> Enabled(s, Advance(t)))
            && (pc.LoadKey? ==> At(s, s.headers[pc.header], pc.tail).key != INVALID_BLOCK_BASE)
  {
    InvInEveryRun(threads, steps);
    var s := Exec(Init(threads), steps);
    assert LookupInv(s, s.threads[t]);
    var pc := s.threads[t];
    if pc.LoadKey? {
      var id := s.headers[pc.header].index[pc.tail];
      assert EntryInv(s.entries[id]);
      KeyNotInvalid(s.entries[id]);
    }
  }

  /** An instant lookup through the current index finds every live block, for every element index of it. */
  lemma LiveFound(s: State, j: nat, r: nat)
    requires IndexInv(s) && j in s.live && r < BLOCK_SIZE
    ensures var h := Current(s);
            var i := LookupSlot(s, h, h.tail, (j * BLOCK_SIZE + r) % TWO64);
            At(s, h, i).number == Some(j) && At(s, h, i).value == Some(s.live[j])
  {
    var h := Current(s);
    TailNumbered(s, j);
    StaleLookup(s, |s.headers| - 1, h.tail, j, r);
    hide PowerOfTwo, Mod, IndexInv, LookupSlot;
    LiveValue(s, h.index[LookupSlot(s, h, h.tail, (j * BLOCK_SIZE + r) % TWO64)], j);
  }

  /** The entry of a live block changes in no step but the free of that block. */
  lemma LiveEntryStable(s: State, step: Step, id: nat, j: nat)
    requires Inv(s) && id < |s.entries| && s.entries[id].number == Some(j) && j in s.live
    requires !(step.Free? && step.t < |s.threads| && Concerns(s.threads[step.t], j))
    ensures id < |Next(s, step).entries| && Next(s, step).entries[id] == s.entries[id]
    ensures j in Next(s, step).live && Next(s, step).live[j] == s.live[j]
  {
    LiveValue(s, id, j);
    hide PowerOfTwo, Mod, LookupSlot, SlotInv, OldHeaderInv, Key;
    if Enabled(s, step) && step.Produce? && s.producer.StoreValue? && j == s.inserted - 1 {
      NumberUnique(s, id, Current(s).index[Current(s).tail]);
    }
    if Enabled(s, step) && step.Free? {
      assert LookupInv(s, s.threads[step.t]);
    }
  }

  /** In every run the producer can take its next step, whatever consumers do; only doubling beyond a capacity of
      2^59 would be refused. */
  lemma InsertNeverStuck(threads: nat, steps: seq<Step>, block: nat)
    ensures var s := Exec(Init(threads), steps);
            && (s.producer.Ready? ==> Enabled(s, Begin))
            && (!s.producer.Ready? && !s.producer.Publish? ==> Enabled(s, Produce(block)))
            && (s.producer.Publish? ==> s.headers != [])
            && (s.producer.Publish? && 2 * Current(s).capacity <= TWO59 ==> Enabled(s, Produce(block)))
  {
    InvInEveryRun(threads, steps);
    var s := Exec(Init(threads), steps);
    if s.producer.Publish? && 2 * Current(s).capacity <= TWO59 {
      GrownKeepsInv(s);
    }
  }

  /** A lookup answers: from every state of the invariant its three loads, with nothing in between, lead to the entry of
      the block. */
  lemma LookupAnswers(s: State, t: nat, j: nat, r: nat)
    requires Inv(s) && t < |s.threads| && s.threads[t].Idle? && j in s.live && r < BLOCK_SIZE
    ensures var s' := Next(Next(Next(Next(s, Look(t, j, r)), Advance(t)), Advance(t)), Advance(t));
            && t < |s'.threads| && s'.threads[t].Found? && s'.threads[t].number == j
            && s'.threads == s.threads[t := s'.threads[t]] && s'.entries == s.entries
            && s'.threads[t].entry < |s.entries| && s.entries[s'.threads[t].entry].value == Some(s.live[j])
  {
    LiveFound(s, j, r);
    assert s.headers != [] && InBounds(s, Current(s));
    hide Inv, IndexInv, LookupSlot, Next;
    LookupSteps(s, t, j, r);
  }

  lemma LookupSteps(s: State, t: nat, j: nat, r: nat)
    requires s.headers != [] && InBounds(s, Current(s))
    requires t < |s.threads| && s.threads[t].Idle? && j in s.live && r < BLOCK_SIZE
    ensures var h := Current(s);
            var x := (j * BLOCK_SIZE + r) % TWO64;
            Next(Next(Next(Next(s, Look(t, j, r)), Advance(t)), Advance(t)), Advance(t))
            == Goto(s, t, Found(j, h.index[LookupSlot(s, h, h.tail, x)]))
  {
    var k, x := |s.headers| - 1, (j * BLOCK_SIZE + r) % TWO64;
    var s2 := Goto(s, t, LoadKey(j, r, k, Current(s).tail));
    SameLookup(s, s2, Current(s), x);
    hide LookupSlot;
    assert Next(s, Look(t, j, r)) == Goto(s, t, LoadHeader(j, r));
    assert Next(Goto(s, t, LoadHeader(j, r)), Advance(t)) == Goto(s, t, LoadTail(j, r, k));
    assert Next(Goto(s, t, LoadTail(j, r, k)), Advance(t)) == s2;
    var slot := LookupSlot(s, Current(s), Current(s).tail, x);
    assert Next(s2, Advance(t)) == Goto(s, t, Found(j, Current(s).index[slot]));
  }

  lemma SameLookup(s: State, s': State, h: Header, x: nat)
    requires InBounds(s, h) && s'.entries == s.entries
    ensures InBounds(s', h) && LookupSlot(s', h, h.tail, x) == LookupSlot(s, h, h.tail, x)
  {
  }

  /** The producer doubles the index only when the entry it would reuse still holds a live block; otherwise it reuses
      the entry. */
  lemma BeginAnswers(s: State)
    requires IndexInv(s) && s.producer.Ready?
    ensures var e := At(s, Current(s), NextSlot(Current(s)));
            var p := Next(s, Begin).producer;
            && (p.StoreKey? || p.Publish?)
            && (p.Publish? <==> e.number.Some? && e.number.value in s.live)
  {
    var h := Current(s);
    var id := h.index[NextSlot(h)];
    KeyNotInvalid(s.entries[id]);
    assert EntryInv(s.entries[id]);
    if s.entries[id].number.Some? && s.entries[id].number.value in s.live {
      LiveValue(s, id, s.entries[id].number.value);
    }
    hide PowerOfTwo, Mod, NextSlot, SlotInv, OldHeaderInv, Key;
  }

  /** A free takes effect: the block is no longer live and its entry can be reused; nothing else changes. */
  lemma FreeTakesEffect(s: State, t: nat)
    requires Enabled(s, Free(t))
    ensures var s' := Next(s, Free(t));
            var j := s.threads[t].number;
            var id := s.threads[t].entry;
            && s'.live == s.live - {j} && j !in s'.live
            && |s'.entries| == |s.entries| && s'.entries[id] == s.entries[id].(value := None) && Vacant(s'.entries[id])
            && (forall i :: 0 <= i < |s.entries| && i != id ==> s'.entries[i] == s.entries[i])
            && s'.headers == s.headers && s'.threads == s.threads[t := Idle]
  {
  }

  /** The steps of one insertion with nothing in between. */
  function Inserted(s: State, block: nat): State {
    var begun := Next(s, Begin);
    var found := if begun.producer.Publish? then Next(begun, Produce(block)) else begun;
    Stored(found, block)
  }

  function Stored(s: State, block: nat): State {
    Next(Next(Next(s, Produce(block)), Produce(block)), Produce(block))
  }

  lemma StoredIs(s: State, block: nat)
    requires s.headers != [] && InBounds(s, Current(s)) && s.producer.StoreKey?
    ensures Stored(s, block) == Filled(Tailed(Keyed(s)), block)
  {
    hide Mod, NextSlot, Key;
    assert Next(s, Produce(block)) == Keyed(s);
    assert Next(Keyed(s), Produce(block)) == Tailed(Keyed(s));
  }

  /** An insertion goes straight to its stores if the next slot is vacant, and doubles the index first if not. */
  lemma InsertedIs(s: State, block: nat)
    requires s.headers != [] && InBounds(s, Current(s)) && s.producer.Ready?
    ensures Vacant(At(s, Current(s), NextSlot(Current(s)))) ==>
              Inserted(s, block) == Stored(s.(producer := StoreKey), block)
    ensures !Vacant(At(s, Current(s), NextSlot(Current(s)))) && 2 * Current(s).capacity <= TWO59
            && Current(s).capacity <= s.inserted ==>
              Inserted(s, block) == Stored(Grown(s.(producer := Publish)), block)
  {
    hide Mod, NextSlot, Key, Stored;
    assert Next(s, Begin) == Begun(s);
  }

  lemma StoresTakeEffect(s: State, block: nat)
    requires IndexInv(s) && s.producer.StoreKey?
    ensures var s' := Stored(s, block);
            && IndexInv(s') && s'.producer.Ready?
            && s'.inserted == s.inserted + 1 && s'.live == s.live[s.inserted := block]
  {
    StoredIs(s, block);
    KeyedKeepsInv(s);
    TailedKeepsInv(Keyed(s));
    FilledKeepsInv(Tailed(Keyed(s)), block);
    hide PowerOfTwo, Mod, NextSlot, Key, CurrentInv, LiveInv, OldHeaderInv;
  }

  lemma InsertTakesEffect(s: State, block: nat)
    requires IndexInv(s) && s.producer.Ready? && 2 * Current(s).capacity <= TWO59
    ensures var s' := Inserted(s, block);
            && IndexInv(s') && s'.producer.Ready?
            && s'.inserted == s.inserted + 1 && s'.live == s.live[s.inserted := block]
  {
    BegunKeepsInv(s);
    InsertedIs(s, block);
    var begun := Begun(s);
    if begun.producer.Publish? {
      GrownKeepsInv(begun);
      StoresTakeEffect(Grown(begun), block);
    } else {
      StoresTakeEffect(begun, block);
    }
    hide IndexInv, Inserted, Stored;
  }

  /** An occupied next slot means that there has been a full circle. */
  lemma OccupiedMeansFull(s: State)
    requires IndexInv(s) && s.producer.Ready? && !Vacant(At(s, Current(s), NextSlot(Current(s))))
    ensures Current(s).capacity <= s.inserted
  {
    var h := Current(s);
    assert EntryInv(s.entries[h.index[NextSlot(h)]]);
    FullCircle(s, 0);
  }

  /** The index object of one producer. Masking with capacity - 1 is `Mod`, the capacity being a power of two. */
  class BlockIndex {
    var entries: seq<Slot>
    var headers: seq<Header>
    var inserted: nat
    var live: map<nat, nat>

    /** The state when the producer is at the given point and nobody is looking anything up. */
    ghost function View(at: Producer): State
      reads this
    {
      State(entries, headers, inserted, at, live, [])
    }

    constructor ()
      ensures View(Ready) == Init(0)
    {
      entries, headers, inserted, live := FreeSlots(INITIAL_SIZE), [FIRST_HEADER], 0, map[];
    }

    /** `new_block_index`: copies the slots starting after the tail, until the tail has been copied. */
    method NewBlockIndex()
      requires headers != [] && InBounds(View(Publish), Current(View(Publish)))
      requires Current(View(Publish)).capacity <= inserted
      modifies this`entries, this`headers
      ensures View(StoreKey) == Grown(old(View(Publish)))
    {
      hide Mod;
      var prev := headers[|headers| - 1];
      var pos := Mod(prev.tail + 1, prev.capacity);
      var index := [prev.index[pos]];
      while pos != prev.tail
        invariant entries == old(entries) && headers == old(headers)
        invariant 1 <= |index| <= prev.capacity && pos == Mod(prev.tail + |index|, prev.capacity)
        invariant forall k :: 0 <= k < |index| ==> index[k] == prev.index[Mod(prev.tail + 1 + k, prev.capacity)]
        decreases prev.capacity - |index|
      {
        if |index| == prev.capacity {
          ModPeriod(prev.tail + prev.capacity, prev.capacity);
          ModSmall(prev.tail, prev.capacity);
        }
        ModInner(prev.tail + |index|, 1, prev.capacity);
        pos := Mod(pos + 1, prev.capacity);
        index := index + [prev.index[pos]];
      }
      if |index| < prev.capacity {
        ModSmall(prev.tail, prev.capacity);
        ModWindow(prev.tail, prev.tail + |index|, prev.capacity);
      }
      assert index == Rotated(prev);
      var added := FreshIds(|entries|, prev.capacity);
      entries := entries + FreeSlots(prev.capacity);
      headers := headers + [Header(2 * prev.capacity, prev.capacity - 1, index + added, inserted - prev.capacity)];
    }

    /** The three stores into the entry of the next slot. */
    method StoreEntry(block: nat)
      requires headers != [] && InBounds(View(StoreKey), Current(View(StoreKey)))
      modifies this
      ensures View(Ready) == Filled(Tailed(Keyed(old(View(StoreKey)))), block)
    {
      hide Mod, Key, NextSlot;
      var h := headers[|headers| - 1];
      var idx := NextSlot(h);
      var id := h.index[idx];
      entries := entries[id := entries[id].(key := Key(inserted), number := Some(inserted))];
      inserted := inserted + 1;
      headers := headers[|headers| - 1 := h.(tail := idx)];
      entries := entries[id := entries[id].(value := Some(block))];
      live := live[inserted - 1 := block];
    }

    /** `insert_block_index_entry` followed by the store of the block. */
    method Insert(block: nat)
      requires IndexInv(View(Ready)) && 2 * Current(View(Ready)).capacity <= TWO59
      modifies this
      ensures View(Ready) == Inserted(old(View(Ready)), block) && IndexInv(View(Ready))
      ensures inserted == old(inserted) + 1 && live == old(live)[old(inserted) := block]
    {
      var h := headers[|headers| - 1];
      var entry := entries[h.index[NextSlot(h)]];
      InsertTakesEffect(View(Ready), block);
      InsertedIs(View(Ready), block);
      if !Vacant(entry) {
        OccupiedMeansFull(View(Ready));
      }
      hide IndexInv, Inserted, Stored, Mod, Key, NextSlot, Filled, Tailed, Keyed, Grown;
      if !Vacant(entry) {
        GrownInBounds(View(Publish));
        NewBlockIndex();
      }
      StoredIs(View(StoreKey), block);
      StoreEntry(block);
    }
  }
}
