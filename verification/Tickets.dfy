/** The ticket and overcommit protocol by which any number of consumers dequeue from one producer
    (ImplicitProducer::enqueue and ::dequeue in concurrentqueue.h), one access to shared memory per step, with
    blocks of cells that return to a pool and are used again. */
module Tickets {
  import opened Common
  import opened Sums

  /** What a 64-bit counter holds. */
  function Res(n: int): nat {
    n % TWO64
  }

  /** Subtraction of 64-bit counters. */
  function Minus(a: nat, b: nat): nat {
    Res(a - b)
  }

  /** `circular_less_than` on 64-bit counters. */
  predicate CircularLess(a: nat, b: nat) {
    Minus(a, b) > TWO63
  }

  /** The circular comparison of residues against the plain one: true is right unless the first number is more than
      2^63 ahead, and false is right unless it is 2^63 or more behind. */
  lemma CircularLessIsLess(a: int, b: int)
    ensures a - b <= TWO63 ==> CircularLess(Res(a), Res(b)) ==> a < b
    ensures b - a < TWO63 ==> a < b ==> CircularLess(Res(a), Res(b))
  {
    DifferenceOfResidues(a, b);
  }

  lemma DifferenceOfResidues(a: int, b: int)
    ensures Minus(Res(a), Res(b)) == Res(a - b)
  {
    assert Res(a) - Res(b) == a - b + TWO64 * (b / TWO64 - a / TWO64);
  }

  /** Program counters, named by the access about to be made. Indices and block numbers count from the start of the
      queue; `block` is the address of a block. */
  datatype PC =
    | Idle
    | LoadOver(tail: nat)
    | Check(tail: nat, over: nat)
    | Ticket(over: nat)
    | Recheck(over: nat, mine: nat)
    | Claim
    | Overcommit
    | Find(index: nat)
    | Read(index: nat, block: nat)
    | SetEmpty(index: nat, block: nat)
    | Clear(number: nat, block: nat)
    | Release(number: nat, block: nat)

  /** What became of each ticket, of each claimed index and of each block number: kept for the proof only. */
  datatype Fate = Open(who: nat) | Claimed | Failed
  datatype Use = Reading(who: nat) | Emptying(who: nat) | Done
  datatype Slot = Slot(block: nat, use: Use)
  datatype BlockState = Live | Clearing(who: nat) | Releasing(who: nat) | Freed

  /** The four counters, unbounded here; the memory holds their residues, and the comparisons see only those. */
  datatype Queue = Queue(tail: nat, optimistic: nat, overcommit: nat, head: nat, fates: seq<Fate>)

  /** `cells` and `consumed` (`elementsCompletelyDequeued`) belong to addresses; `index` is the block index, from
      block numbers to addresses; `pool` holds the addresses of free blocks. The rest records the past: what was
      written, at which address each block number was, what consumers received and which numbers they freed. */
  datatype Memory<T> = Memory(
    cells: seq<seq<Option<T>>>,
    consumed: seq<nat>,
    index: map<nat, nat>,
    pool: set<nat>,
    written: seq<T>,
    homes: seq<nat>,
    slots: seq<Slot>,
    blocks: seq<BlockState>,
    delivered: seq<(nat, T)>,
    freed: seq<nat>)

  datatype State<T> = State(q: Queue, m: Memory<T>, threads: seq<PC>)

  datatype Step<T> = NewBlock(block: nat) | Write(x: T) | PublishTail | Start(t: nat) | Advance(t: nat)

  function Init<T>(threads: nat): State<T> {
    State(Queue(0, 0, 0, 0, []), Memory([], [], map[], {}, [], [], [], [], [], []), seq(threads, _ => Idle))
  }

  // The steps

  predicate InBlock<T>(m: Memory<T>, p: nat) {
    p < |m.cells| == |m.consumed| && |m.cells[p]| == BLOCK_SIZE
  }

  predicate SlotInBounds<T>(m: Memory<T>, i: nat) {
    i < |m.slots| && i / BLOCK_SIZE < |m.blocks|
  }

  predicate InBounds<T>(s: State<T>, t: nat) {
    && t < |s.threads|
    && match s.threads[t]
       case Recheck(over, mine) => mine < |s.q.fates|
       case Find(i) => i / BLOCK_SIZE in s.m.index
       case Read(i, p) => SlotInBounds(s.m, i) && InBlock(s.m, p) && s.m.cells[p][i % BLOCK_SIZE].Some?
       case SetEmpty(i, p) => SlotInBounds(s.m, i) && InBlock(s.m, p)
       case Clear(b, _) => b < |s.m.blocks|
       case Release(b, _) => b < |s.m.blocks|
       case _ => true
  }

  /** The second comparison admits no ticket wrongly if the ticket, less the failures it discounts, is at most 2^63
      past the tail: some 2^63 tickets would have to fail between a consumer's two comparisons to break this. The
      first comparison needs no such condition, because the second one decides. */
  predicate InWindow(q: Queue, pc: PC) {
    pc.Recheck? ==> pc.mine - pc.over <= q.tail + TWO63
  }

  /** A new block is begun when the last one is full and the source's own test finds room. */
  predicate Room(q: Queue) {
    CircularLess(Res(q.head), Res(q.tail + BLOCK_SIZE))
  }

  predicate Enabled<T>(s: State<T>, step: Step<T>) {
    match step
    case NewBlock(p) =>
      && |s.m.written| == s.q.tail == BLOCK_SIZE * |s.m.homes| && Room(s.q)
      && (p in s.m.pool || p == |s.m.cells|) && p <= |s.m.cells| == |s.m.consumed|
    case Write(_) =>
      && |s.m.written| == s.q.tail < BLOCK_SIZE * |s.m.homes|
      && InBlock(s.m, s.m.homes[|s.m.homes| - 1])
    case PublishTail => |s.m.written| == s.q.tail + 1
    case Start(t) => t < |s.threads| && s.threads[t].Idle?
    case Advance(t) => InBounds(s, t) && InWindow(s.q, s.threads[t]) && !s.threads[t].Idle?
  }

  /** A block from the pool, or a new one, is reset and entered in the index; nobody else knows it before that. */
  function WithBlock<T>(m: Memory<T>, p: nat): Memory<T>
    requires p <= |m.cells| == |m.consumed|
  {
    var cells := if p == |m.cells| then m.cells + [seq(BLOCK_SIZE, _ => None)] else m.cells;
    m.(cells := cells,
       consumed := if p == |m.cells| then m.consumed + [0] else m.consumed[p := 0],
       index := m.index[|m.homes| := p],
       pool := m.pool - {p},
       homes := m.homes + [p],
       blocks := m.blocks + [Live])
  }

  function SetCell<T>(m: Memory<T>, p: nat, i: nat, x: Option<T>): seq<seq<Option<T>>>
    requires InBlock(m, p)
  {
    m.cells[p := m.cells[p][i % BLOCK_SIZE := x]]
  }

  function Written<T>(m: Memory<T>, x: T): Memory<T>
    requires m.homes != [] && InBlock(m, m.homes[|m.homes| - 1])
  {
    m.(cells := SetCell(m, m.homes[|m.homes| - 1], |m.written|, Some(x)), written := m.written + [x])
  }

  function DoTicket(q: Queue, t: nat): Queue {
    q.(optimistic := q.optimistic + 1, fates := q.fates + [Open(t)])
  }

  predicate Admitted(q: Queue, over: nat, mine: nat) {
    CircularLess(Minus(Res(mine), Res(over)), Res(q.tail))
  }

  function DoRecheck(q: Queue, over: nat, mine: nat): Queue
    requires mine < |q.fates|
  {
    q.(fates := q.fates[mine := if Admitted(q, over, mine) then Claimed else Failed])
  }

  function ClaimedSlot<T>(m: Memory<T>, t: nat): Memory<T> {
    m.(slots := m.slots + [Slot(|m.slots| / BLOCK_SIZE, Reading(t))])
  }

  /** The element is moved out of its cell and destroyed there. */
  function Received<T>(m: Memory<T>, t: nat, i: nat, p: nat): Memory<T>
    requires SlotInBounds(m, i) && InBlock(m, p) && m.cells[p][i % BLOCK_SIZE].Some?
  {
    m.(cells := SetCell(m, p, i, None),
       slots := m.slots[i := m.slots[i].(use := Emptying(t))],
       delivered := m.delivered + [(i, m.cells[p][i % BLOCK_SIZE].value)])
  }

  /** `set_empty`: the consumer that raises the counter to the block size goes on to free the block. */
  predicate LastOne<T>(m: Memory<T>, p: nat)
    requires InBlock(m, p)
  {
    m.consumed[p] == BLOCK_SIZE - 1
  }

  function Emptied<T>(m: Memory<T>, t: nat, i: nat, p: nat): Memory<T>
    requires SlotInBounds(m, i) && InBlock(m, p)
  {
    m.(consumed := m.consumed[p := m.consumed[p] + 1],
       slots := m.slots[i := m.slots[i].(use := Done)],
       blocks := if LastOne(m, p) then m.blocks[i / BLOCK_SIZE := Clearing(t)] else m.blocks)
  }

  function ClearedEntry<T>(m: Memory<T>, t: nat, b: nat): Memory<T>
    requires b < |m.blocks|
  {
    m.(index := m.index - {b}, blocks := m.blocks[b := Releasing(t)])
  }

  function Released<T>(m: Memory<T>, b: nat, p: nat): Memory<T>
    requires b < |m.blocks|
  {
    m.(pool := m.pool + {p}, blocks := m.blocks[b := Freed], freed := m.freed + [b])
  }

  function Goto<T>(s: State<T>, t: nat, pc: PC): State<T>
    requires t < |s.threads|
  {
    s.(threads := s.threads[t := pc])
  }

  function Advanced<T>(s: State<T>, t: nat): State<T>
    requires InBounds(s, t) && !s.threads[t].Idle?
  {
    match s.threads[t]
    case LoadOver(tail) => Goto(s, t, Check(tail, s.q.overcommit))
    case Check(tail, over) =>
      Goto(s, t, if CircularLess(Minus(Res(s.q.optimistic), Res(over)), Res(tail)) then Ticket(over) else Idle)
    case Ticket(over) => Goto(s, t, Recheck(over, s.q.optimistic)).(q := DoTicket(s.q, t))
    case Recheck(over, mine) =>
      Goto(s, t, if Admitted(s.q, over, mine) then Claim else Overcommit).(q := DoRecheck(s.q, over, mine))
    case Claim => Goto(s, t, Find(s.q.head)).(q := s.q.(head := s.q.head + 1), m := ClaimedSlot(s.m, t))
    case Overcommit => Goto(s, t, Idle).(q := s.q.(overcommit := s.q.overcommit + 1))
    case Find(i) => Goto(s, t, Read(i, s.m.index[i / BLOCK_SIZE]))
    case Read(i, p) => Goto(s, t, SetEmpty(i, p)).(m := Received(s.m, t, i, p))
    case SetEmpty(i, p) =>
      Goto(s, t, if LastOne(s.m, p) then Clear(i / BLOCK_SIZE, p) else Idle).(m := Emptied(s.m, t, i, p))
    case Clear(b, p) => Goto(s, t, Release(b, p)).(m := ClearedEntry(s.m, t, b))
    case Release(b, p) => Goto(s, t, Idle).(m := Released(s.m, b, p))
  }

  function Apply<T>(s: State<T>, step: Step<T>): State<T>
    requires Enabled(s, step)
  {
    match step
    case NewBlock(p) => s.(m := WithBlock(s.m, p))
    case Write(x) => s.(m := Written(s.m, x))
    case PublishTail => s.(q := s.q.(tail := s.q.tail + 1))
    case Start(t) => Goto(s, t, LoadOver(s.q.tail))
    case Advance(t) => Advanced(s, t)
  }

  function Next<T>(s: State<T>, step: Step<T>): State<T> {
    if Enabled(s, step) then Apply(s, step) else s
  }

  function Exec<T>(s: State<T>, steps: seq<Step<T>>): State<T> {
    if steps == [] then s else Next(Exec(s, steps[..|steps| - 1]), steps[|steps| - 1])
  }

  // Counting

  function FailedWeight(): Fate -> int {
    (f: Fate) => if f.Failed? then 1 else 0
  }

  function ClaimedWeight(): Fate -> int {
    (f: Fate) => if f.Claimed? then 1 else 0
  }

  function Failures(fates: seq<Fate>): int {
    Sum(fates, FailedWeight())
  }

  function Claims(fates: seq<Fate>): int {
    Sum(fates, ClaimedWeight())
  }

  function ClaimWeight(): PC -> int {
    (pc: PC) => if pc.Claim? then 1 else 0
  }

  function OvercommitWeight(): PC -> int {
    (pc: PC) => if pc.Overcommit? then 1 else 0
  }

  predicate Receiving(pc: PC) {
    pc.Find? || pc.Read?
  }

  function ReadWeight(): PC -> int {
    (pc: PC) => if Receiving(pc) then 1 else 0
  }

  function AtClaim(threads: seq<PC>): int {
    Sum(threads, ClaimWeight())
  }

  function AtOvercommit(threads: seq<PC>): int {
    Sum(threads, OvercommitWeight())
  }

  /** Consumers that have an index and not yet its item. */
  function AtRead(threads: seq<PC>): int {
    Sum(threads, ReadWeight())
  }

  function DoneWeight(b: nat): Slot -> int {
    (s: Slot) => if s.block == b && s.use.Done? then 1 else 0
  }

  function DoneIn(slots: seq<Slot>, b: nat): int {
    Sum(slots, DoneWeight(b))
  }

  // The invariant: tickets

  predicate TicketPC(q: Queue, t: nat, pc: PC) {
    match pc
    case Check(_, over) => over <= q.overcommit
    case Ticket(over) => over <= q.overcommit
    case Recheck(over, mine) => mine < |q.fates| && q.fates[mine] == Open(t) && over <= Failures(q.fates[..mine])
    case _ => true
  }

  /** A claimed ticket was below the tail once the failed tickets before it are discounted. */
  predicate FateInv(fates: seq<Fate>, tail: nat, m: nat)
    requires m < |fates|
  {
    fates[m].Claimed? ==> m + 1 - Failures(fates[..m]) <= tail
  }

  ghost predicate FatesInv(fates: seq<Fate>, tail: nat) {
    forall m: nat :: m < |fates| ==> FateInv(fates, tail, m)
  }

  /** An undecided ticket is in the hands of the consumer that took it. */
  predicate OpenHeld(fates: seq<Fate>, threads: seq<PC>, m: nat)
    requires m < |fates|
  {
    fates[m].Open? ==>
      fates[m].who < |threads| && threads[fates[m].who].Recheck? && threads[fates[m].who].mine == m
  }

  /** Claims, failures and tickets in flight account for every ticket issued. */
  ghost predicate TicketInv(q: Queue, threads: seq<PC>) {
    && |q.fates| == q.optimistic
    && Failures(q.fates) == q.overcommit + AtOvercommit(threads)
    && Claims(q.fates) == q.head + AtClaim(threads)
    && FatesInv(q.fates, q.tail)
    && (forall t: nat :: t < |threads| ==> TicketPC(q, t, threads[t]))
    && (forall m: nat :: m < |q.fates| ==> OpenHeld(q.fates, threads, m))
  }

  // The invariant: items and blocks

  /** Sizes, and where a block number is. */
  ghost predicate ShapeInv<T>(m: Memory<T>) {
    && |m.cells| == |m.consumed| && |m.homes| == |m.blocks|
    && (forall p: nat :: p < |m.cells| ==> |m.cells[p]| == BLOCK_SIZE)
    && (forall b: nat :: b < |m.homes| ==> m.homes[b] < |m.cells|)
    && (forall p :: p in m.pool ==> p < |m.cells|)
    && |m.slots| <= |m.written| <= BLOCK_SIZE * |m.homes| <= |m.written| + BLOCK_SIZE
    && (forall i: nat :: i < |m.slots| ==> m.slots[i].block == i / BLOCK_SIZE)
  }

  /** Block numbers that are not freed have addresses of their own, outside the pool. */
  ghost predicate HomesInv<T>(m: Memory<T>)
    requires ShapeInv(m)
  {
    && (forall b: nat :: b < |m.blocks| && !m.blocks[b].Freed? ==> m.homes[b] !in m.pool)
    && (forall b: nat, c: nat :: b < c < |m.blocks| && !m.blocks[b].Freed? && !m.blocks[c].Freed? ==>
          m.homes[b] != m.homes[c])
    && (forall b: nat :: b in m.index <==> b < |m.blocks| && (m.blocks[b].Live? || m.blocks[b].Clearing?))
    && (forall b: nat :: b in m.index ==> m.index[b] == m.homes[b])
  }

  ghost predicate BlockInv<T>(m: Memory<T>, b: nat)
    requires ShapeInv(m) && b < |m.blocks|
  {
    && (m.blocks[b].Live? <==> DoneIn(m.slots, b) < BLOCK_SIZE)
    && (!m.blocks[b].Freed? ==> m.consumed[m.homes[b]] == DoneIn(m.slots, b))
  }

  /** Written, and not yet received. */
  predicate Waiting<T>(m: Memory<T>, i: nat) {
    i < |m.written| && (i < |m.slots| ==> m.slots[i].use.Reading?)
  }

  /** An item is in its cell until it is received, although the block may have served other numbers before. */
  ghost predicate ContentInv<T(!new)>(m: Memory<T>)
    requires ShapeInv(m)
  {
    forall i: nat :: Waiting(m, i) ==> m.cells[m.homes[i / BLOCK_SIZE]][i % BLOCK_SIZE] == Some(m.written[i])
  }

  predicate Got<T>(m: Memory<T>, i: nat) {
    exists j :: 0 <= j < |m.delivered| && m.delivered[j].0 == i
  }

  /** The indices received are exactly the claimed ones that are not being read, once each, each with its item. */
  ghost predicate DeliveredInv<T(!new)>(m: Memory<T>) {
    && (forall j :: 0 <= j < |m.delivered| ==>
          && m.delivered[j].0 < |m.slots| && m.delivered[j].0 < |m.written|
          && !m.slots[m.delivered[j].0].use.Reading?
          && m.delivered[j].1 == m.written[m.delivered[j].0])
    && (forall i, j :: 0 <= i < j < |m.delivered| ==> m.delivered[i].0 != m.delivered[j].0)
    && (forall i: nat :: i < |m.slots| && !m.slots[i].use.Reading? ==> Got(m, i))
  }

  ghost predicate FreedInv<T>(m: Memory<T>) {
    && (forall j :: 0 <= j < |m.freed| ==> m.freed[j] < |m.blocks| && m.blocks[m.freed[j]].Freed?)
    && (forall i, j :: 0 <= i < j < |m.freed| ==> m.freed[i] != m.freed[j])
    && (forall b: nat :: b < |m.blocks| && m.blocks[b].Freed? ==> b in m.freed)
  }

  /** What a consumer's program counter says about its index and its block. */
  predicate ItemPC<T>(m: Memory<T>, t: nat, pc: PC)
    requires |m.homes| == |m.blocks|
  {
    match pc
    case Find(i) => SlotInBounds(m, i) && m.slots[i].use == Reading(t)
    case Read(i, p) => SlotInBounds(m, i) && m.slots[i].use == Reading(t) && p == m.homes[i / BLOCK_SIZE]
    case SetEmpty(i, p) => SlotInBounds(m, i) && m.slots[i].use == Emptying(t) && p == m.homes[i / BLOCK_SIZE]
    case Clear(b, p) => b < |m.blocks| && m.blocks[b] == Clearing(t) && p == m.homes[b]
    case Release(b, p) => b < |m.blocks| && m.blocks[b] == Releasing(t) && p == m.homes[b]
    case _ => true
  }

  /** The consumer is at work on index i, before or after receiving the item. */
  predicate WorksOn(pc: PC, i: nat, use: Use) {
    match use
    case Reading(_) => Receiving(pc) && pc.index == i
    case Emptying(_) => pc.SetEmpty? && pc.index == i
    case Done => true
  }

  predicate Frees(pc: PC, b: nat, state: BlockState) {
    match state
    case Clearing(_) => pc.Clear? && pc.number == b
    case Releasing(_) => pc.Release? && pc.number == b
    case _ => true
  }

  predicate SlotHeld<T>(m: Memory<T>, threads: seq<PC>, i: nat)
    requires i < |m.slots|
  {
    var use := m.slots[i].use;
    !use.Done? ==> use.who < |threads| && WorksOn(threads[use.who], i, use)
  }

  predicate BlockHeld<T>(m: Memory<T>, threads: seq<PC>, b: nat)
    requires b < |m.blocks|
  {
    var state := m.blocks[b];
    state.Clearing? || state.Releasing? ==> state.who < |threads| && Frees(threads[state.who], b, state)
  }

  /** Unfinished indices and blocks are in the hands of the consumers named in the records, and conversely. */
  ghost predicate HandsInv<T>(m: Memory<T>, threads: seq<PC>)
    requires |m.homes| == |m.blocks|
  {
    && (forall t: nat :: t < |threads| ==> ItemPC(m, t, threads[t]))
    && (forall i: nat :: i < |m.slots| ==> SlotHeld(m, threads, i))
    && (forall b: nat :: b < |m.blocks| ==> BlockHeld(m, threads, b))
    && |m.delivered| + AtRead(threads) == |m.slots|
  }

  ghost predicate MemoryInv<T(!new)>(m: Memory<T>) {
    && ShapeInv(m) && HomesInv(m) && ContentInv(m) && DeliveredInv(m) && FreedInv(m)
    && forall b: nat :: b < |m.blocks| ==> BlockInv(m, b)
  }

  ghost predicate Inv<T(!new)>(s: State<T>) {
    && TicketInv(s.q, s.threads) && MemoryInv(s.m) && HandsInv(s.m, s.threads)
    && |s.m.slots| == s.q.head && s.q.tail <= |s.m.written| <= s.q.tail + 1
    && BLOCK_SIZE * |s.m.homes| < s.q.head + TWO63
  }

  // Claims never exceed the tail

  lemma {:induction false} AtMostOneFate(fates: seq<Fate>)
    ensures 0 <= Failures(fates) && 0 <= Claims(fates) && Claims(fates) + Failures(fates) <= |fates|
  {
    if fates != [] {
      AtMostOneFate(fates[..|fates| - 1]);
    }
  }

  /** The ticket argument: the largest claimed ticket bounds all claims, because the tickets below it include
      every failure it discounted. */
  lemma {:induction false} ClaimsWithinTail(fates: seq<Fate>, tail: nat)
    requires FatesInv(fates, tail)
    ensures Claims(fates) <= tail
  {
    if fates != [] {
      var m := |fates| - 1;
      var init := fates[..m];
      if fates[m].Claimed? {
        AtMostOneFate(init);
        assert FateInv(fates, tail, m);
      } else {
        forall k: nat | k < |init| ensures FateInv(init, tail, k) {
          assert init[..k] == fates[..k];
          assert FateInv(fates, tail, k);
        }
        ClaimsWithinTail(init, tail);
      }
    }
  }

  lemma SumsNonNegative(threads: seq<PC>)
    ensures 0 <= AtClaim(threads) && 0 <= AtOvercommit(threads) && 0 <= AtRead(threads)
    ensures forall t :: 0 <= t < |threads| && threads[t].Claim? ==> 1 <= AtClaim(threads)
  {
    SumNonNegative(threads, ClaimWeight());
    SumNonNegative(threads, OvercommitWeight());
    SumNonNegative(threads, ReadWeight());
    forall t | 0 <= t < |threads| && threads[t].Claim? ensures 1 <= AtClaim(threads) {
      SumAtLeast(threads, t, ClaimWeight());
    }
  }

  lemma ThreadsUpdate(threads: seq<PC>, t: nat, pc: PC)
    requires t < |threads|
    ensures AtClaim(threads[t := pc])
         == AtClaim(threads) - (if threads[t].Claim? then 1 else 0) + (if pc.Claim? then 1 else 0)
    ensures AtOvercommit(threads[t := pc])
         == AtOvercommit(threads) - (if threads[t].Overcommit? then 1 else 0) + (if pc.Overcommit? then 1 else 0)
    ensures AtRead(threads[t := pc])
         == AtRead(threads) - (if Receiving(threads[t]) then 1 else 0) + (if Receiving(pc) then 1 else 0)
  {
    SumUpdate(threads, t, pc, ClaimWeight());
    SumUpdate(threads, t, pc, OvercommitWeight());
    SumUpdate(threads, t, pc, ReadWeight());
  }

  // Steps on tickets

  lemma FatePrefix(fates: seq<Fate>, mine: nat, f: Fate, k: nat)
    requires mine < |fates| && fates[mine].Open? && k <= |fates|
    ensures Failures(fates[mine := f][..k]) == Failures(fates[..k]) + if mine < k && f.Failed? then 1 else 0
  {
    if mine < k {
      assert fates[mine := f][..k] == fates[..k][mine := f];
      SumUpdate(fates[..k], mine, f, FailedWeight());
    } else {
      assert fates[mine := f][..k] == fates[..k];
    }
  }

  lemma DecideKeepsFates(fates: seq<Fate>, mine: nat, f: Fate, tail: nat)
    requires FatesInv(fates, tail) && mine < |fates| && fates[mine].Open?
    requires f.Failed? || (f.Claimed? && mine + 1 - Failures(fates[..mine]) <= tail)
    ensures FatesInv(fates[mine := f], tail)
  {
    var decided := fates[mine := f];
    forall m: nat | m < |decided| ensures FateInv(decided, tail, m) {
      assert FateInv(fates, tail, m);
      FatePrefix(fates, mine, f, m);
    }
  }

  lemma CountFates(fates: seq<Fate>, mine: nat, f: Fate)
    requires mine < |fates| && fates[mine].Open?
    ensures Failures(fates[mine := f]) == Failures(fates) + if f.Failed? then 1 else 0
    ensures Claims(fates[mine := f]) == Claims(fates) + if f.Claimed? then 1 else 0
  {
    SumUpdate(fates, mine, f, FailedWeight());
    SumUpdate(fates, mine, f, ClaimedWeight());
  }

  lemma AdmittedIsBelow(q: Queue, over: nat, mine: nat)
    requires mine - over <= q.tail + TWO63 && Admitted(q, over, mine)
    ensures mine - over < q.tail
  {
    DifferenceOfResidues(mine, over);
    CircularLessIsLess(mine - over, q.tail);
  }

  lemma RecheckStep(q: Queue, threads: seq<PC>, t: nat, over: nat, mine: nat)
    requires TicketInv(q, threads) && t < |threads| && threads[t] == Recheck(over, mine) && InWindow(q, threads[t])
    ensures mine < |q.fates|
    ensures TicketInv(DoRecheck(q, over, mine), threads[t := if Admitted(q, over, mine) then Claim else Overcommit])
  {
    hide Failures, Claims, FatesInv, AtClaim, AtOvercommit, AtRead, Admitted;
    assert TicketPC(q, t, threads[t]);
    AtMostOneFate(q.fates[..mine]);
    if Admitted(q, over, mine) {
      AdmittedIsBelow(q, over, mine);
    }
    var q', f := DoRecheck(q, over, mine), DoRecheck(q, over, mine).fates[mine];
    var threads' := threads[t := if Admitted(q, over, mine) then Claim else Overcommit];
    ThreadsUpdate(threads, t, threads'[t]);
    DecideKeepsFates(q.fates, mine, f, q.tail);
    CountFates(q.fates, mine, f);
    forall u: nat | u < |threads'| ensures TicketPC(q', u, threads'[u]) {
      assert TicketPC(q, u, threads[u]);
      if u != t && threads[u].Recheck? {
        FatePrefix(q.fates, mine, f, threads[u].mine);
      }
    }
    forall m: nat | m < |q'.fates| ensures OpenHeld(q'.fates, threads', m) {
      assert OpenHeld(q.fates, threads, m);
    }
  }

  lemma AppendKeepsFates(fates: seq<Fate>, t: nat, tail: nat)
    requires FatesInv(fates, tail)
    ensures FatesInv(fates + [Open(t)], tail)
    ensures Failures(fates + [Open(t)]) == Failures(fates) && Claims(fates + [Open(t)]) == Claims(fates)
  {
    SumPush(fates, Open(t), FailedWeight());
    SumPush(fates, Open(t), ClaimedWeight());
    forall m: nat | m < |fates| + 1 ensures FateInv(fates + [Open(t)], tail, m) {
      if m < |fates| {
        assert (fates + [Open(t)])[..m] == fates[..m];
        assert FateInv(fates, tail, m);
      }
    }
  }

  lemma TicketStep(q: Queue, threads: seq<PC>, t: nat, over: nat)
    requires TicketInv(q, threads) && t < |threads| && threads[t] == Ticket(over)
    ensures TicketInv(DoTicket(q, t), threads[t := Recheck(over, q.optimistic)])
  {
    hide Failures, Claims, FatesInv, AtClaim, AtOvercommit, AtRead;
    assert TicketPC(q, t, threads[t]);
    var q', threads' := DoTicket(q, t), threads[t := Recheck(over, q.optimistic)];
    ThreadsUpdate(threads, t, threads'[t]);
    SumsNonNegative(threads);
    AppendKeepsFates(q.fates, t, q.tail);
    forall u: nat | u < |threads'| ensures TicketPC(q', u, threads'[u]) {
      assert TicketPC(q, u, threads[u]);
      if u == t {
        assert q'.fates[..q.optimistic] == q.fates;
      } else if threads[u].Recheck? {
        assert q'.fates[..threads[u].mine] == q.fates[..threads[u].mine];
      }
    }
    forall m: nat | m < |q'.fates| ensures OpenHeld(q'.fates, threads', m) {
      assert m < |q.fates| ==> OpenHeld(q.fates, threads, m);
    }
  }

  /** Steps that change no ticket: a claim becomes an index, a failure is written off, or neither. */
  lemma TicketsQuiet(q: Queue, q': Queue, threads: seq<PC>, t: nat, pc: PC)
    requires TicketInv(q, threads) && t < |threads| && !threads[t].Recheck?
    requires TicketPC(q, t, pc) && !pc.Claim? && !pc.Overcommit? && !pc.Recheck?
    requires q' == q.(head := q.head + if threads[t].Claim? then 1 else 0,
                      overcommit := q.overcommit + if threads[t].Overcommit? then 1 else 0)
    ensures TicketInv(q', threads[t := pc])
  {
    hide Failures, Claims, FatesInv, AtClaim, AtOvercommit, AtRead;
    ThreadsUpdate(threads, t, pc);
    var threads' := threads[t := pc];
    forall u: nat | u < |threads'| ensures TicketPC(q', u, threads'[u]) {
      assert TicketPC(q, u, threads[u]);
    }
    forall m: nat | m < |q'.fates| ensures OpenHeld(q'.fates, threads', m) {
      assert OpenHeld(q.fates, threads, m);
    }
  }

  lemma PublishTickets(q: Queue, threads: seq<PC>)
    requires TicketInv(q, threads)
    ensures TicketInv(q.(tail := q.tail + 1), threads)
  {
    hide Failures, Claims, AtClaim, AtOvercommit;
    var q' := q.(tail := q.tail + 1);
    forall m: nat | m < |q.fates| ensures FateInv(q.fates, q'.tail, m) {
      assert FateInv(q.fates, q.tail, m);
    }
    forall u: nat | u < |threads| ensures TicketPC(q', u, threads[u]) {
      assert TicketPC(q, u, threads[u]);
    }
  }

  lemma HeadWithinTail<T(!new)>(s: State<T>)
    requires Inv(s)
    ensures s.q.head + AtClaim(s.threads) <= s.q.tail <= |s.m.written|
    ensures 0 <= AtClaim(s.threads)
    ensures forall t :: 0 <= t < |s.threads| && s.threads[t].Claim? ==> s.q.head < s.q.tail
  {
    ClaimsWithinTail(s.q.fates, s.q.tail);
    SumsNonNegative(s.threads);
  }

  // Unfinished blocks

  /** Of the first |slots| indices, those in block b number |slots| - 32b, clipped to 0..32. */
  lemma {:induction false} SlotsInBlock(slots: seq<Slot>, b: nat)
    requires forall i: nat :: i < |slots| ==> slots[i].block == i / BLOCK_SIZE
    ensures Sum(slots, (s: Slot) => if s.block == b then 1 else 0)
         == if |slots| <= b * BLOCK_SIZE then 0
            else if b * BLOCK_SIZE + BLOCK_SIZE <= |slots| then BLOCK_SIZE else |slots| - b * BLOCK_SIZE
  {
    if slots != [] {
      SlotsInBlock(slots[..|slots| - 1], b);
      assert (|slots| - 1) / BLOCK_SIZE == b <==> b * BLOCK_SIZE < |slots| <= b * BLOCK_SIZE + BLOCK_SIZE;
    }
  }

  lemma DoneAtMostClaimed(slots: seq<Slot>, b: nat)
    requires forall j: nat :: j < |slots| ==> slots[j].block == j / BLOCK_SIZE
    ensures DoneIn(slots, b) <= BLOCK_SIZE
    ensures |slots| < b * BLOCK_SIZE + BLOCK_SIZE ==> DoneIn(slots, b) < BLOCK_SIZE
  {
    var all := (s: Slot) => if s.block == b then 1 else 0;
    SlotsInBlock(slots, b);
    SumMono(slots, DoneWeight(b), all);
  }

  /** While one index of a block is unfinished, fewer than 32 of its indices are done. */
  lemma DoneBelowSize(slots: seq<Slot>, i: nat)
    requires forall j: nat :: j < |slots| ==> slots[j].block == j / BLOCK_SIZE
    requires i < |slots| && !slots[i].use.Done?
    ensures DoneIn(slots, i / BLOCK_SIZE) < BLOCK_SIZE
  {
    var b := i / BLOCK_SIZE;
    var all := (s: Slot) => if s.block == b then 1 else 0;
    SlotsInBlock(slots, b);
    SumMono(slots[..i], DoneWeight(b), all);
    SumMono(slots[i + 1..], DoneWeight(b), all);
    SumAt(slots, i, DoneWeight(b));
    SumAt(slots, i, all);
  }

  /** A block with an index that is not claimed yet, or still being read or emptied, is live. */
  lemma BusyBlockIsLive<T(!new)>(m: Memory<T>, i: nat)
    requires MemoryInv(m) && i < BLOCK_SIZE * |m.homes| && (i < |m.slots| ==> !m.slots[i].use.Done?)
    ensures var b := i / BLOCK_SIZE;
            && b < |m.blocks| && m.blocks[b].Live? && b in m.index && m.index[b] == m.homes[b]
            && m.consumed[m.homes[b]] == DoneIn(m.slots, b) < BLOCK_SIZE
  {
    var b := i / BLOCK_SIZE;
    DoneAtMostClaimed(m.slots, b);
    if i < |m.slots| {
      DoneBelowSize(m.slots, i);
    }
    hide DoneIn, ContentInv, DeliveredInv, FreedInv;
    assert BlockInv(m, b);
  }

  /** Different unfinished indices have different cells. */
  lemma CellsApart<T(!new)>(m: Memory<T>, i: nat, k: nat)
    requires MemoryInv(m) && i != k
    requires i < BLOCK_SIZE * |m.homes| && (i < |m.slots| ==> !m.slots[i].use.Done?)
    requires k < BLOCK_SIZE * |m.homes| && (k < |m.slots| ==> !m.slots[k].use.Done?)
    ensures i / BLOCK_SIZE < |m.homes| && k / BLOCK_SIZE < |m.homes|
    ensures m.homes[i / BLOCK_SIZE] != m.homes[k / BLOCK_SIZE] || i % BLOCK_SIZE != k % BLOCK_SIZE
  {
    BusyBlockIsLive(m, i);
    BusyBlockIsLive(m, k);
    hide DoneIn, ContentInv, DeliveredInv, FreedInv, BlockInv;
    if i / BLOCK_SIZE == k / BLOCK_SIZE {
      assert i % BLOCK_SIZE != k % BLOCK_SIZE;
    }
  }

  // Steps on items and blocks

  predicate OffItems(pc: PC) {
    pc.Idle? || pc.LoadOver? || pc.Check? || pc.Ticket? || pc.Recheck? || pc.Claim? || pc.Overcommit?
  }

  lemma HandsQuiet<T>(m: Memory<T>, threads: seq<PC>, t: nat, pc: PC)
    requires |m.homes| == |m.blocks| && HandsInv(m, threads) && t < |threads| && OffItems(threads[t]) && OffItems(pc)
    ensures HandsInv(m, threads[t := pc])
  {
    hide AtRead;
    ThreadsUpdate(threads, t, pc);
    var threads' := threads[t := pc];
    forall u: nat | u < |threads'| ensures ItemPC(m, u, threads'[u]) {
      assert ItemPC(m, u, threads[u]);
    }
    forall i: nat | i < |m.slots| ensures SlotHeld(m, threads', i) {
      assert SlotHeld(m, threads, i);
    }
    forall b: nat | b < |m.blocks| ensures BlockHeld(m, threads', b) {
      assert BlockHeld(m, threads, b);
    }
  }

  lemma SlotPush(slots: seq<Slot>, slot: Slot, b: nat)
    requires slot.use.Reading?
    ensures DoneIn(slots + [slot], b) == DoneIn(slots, b)
  {
    SumPush(slots, slot, DoneWeight(b));
  }

  lemma SlotUpdate(slots: seq<Slot>, i: nat, use: Use, b: nat)
    requires i < |slots| && !slots[i].use.Done?
    ensures DoneIn(slots[i := slots[i].(use := use)], b)
         == DoneIn(slots, b) + if use.Done? && slots[i].block == b then 1 else 0
  {
    SumUpdate(slots, i, slots[i].(use := use), DoneWeight(b));
  }

  /** Deliveries are untouched by steps that receive nothing. */
  lemma DeliveredKept<T(!new)>(m: Memory<T>, m': Memory<T>)
    requires DeliveredInv(m) && m'.delivered == m.delivered && m.written <= m'.written && |m'.slots| == |m.slots|
    requires forall i: nat :: i < |m.slots| ==> m'.slots[i].use.Reading? == m.slots[i].use.Reading?
    ensures DeliveredInv(m')
  {
    forall i: nat | i < |m'.slots| && !m'.slots[i].use.Reading? ensures Got(m', i) {
      assert Got(m, i);
    }
  }

  lemma ClaimMemory<T(!new)>(m: Memory<T>, t: nat)
    requires MemoryInv(m) && |m.slots| < |m.written|
    ensures MemoryInv(ClaimedSlot(m, t))
  {
    hide DoneIn;
    var m' := ClaimedSlot(m, t);
    assert ShapeInv(m') && HomesInv(m');
    forall b: nat | b < |m'.blocks| ensures BlockInv(m', b) {
      assert BlockInv(m, b);
      SlotPush(m.slots, m'.slots[|m.slots|], b);
    }
    assert forall i: nat :: Waiting(m', i) ==> Waiting(m, i);
    forall i: nat | i < |m'.slots| && !m'.slots[i].use.Reading? ensures Got(m', i) {
      assert Got(m, i);
    }
  }

  lemma ClaimHands<T>(m: Memory<T>, threads: seq<PC>, t: nat)
    requires |m.homes| == |m.blocks| && HandsInv(m, threads) && t < |threads| && threads[t].Claim?
    requires |m.slots| / BLOCK_SIZE < |m.blocks|
    ensures HandsInv(ClaimedSlot(m, t), threads[t := Find(|m.slots|)])
  {
    hide AtRead;
    var m', threads' := ClaimedSlot(m, t), threads[t := Find(|m.slots|)];
    ThreadsUpdate(threads, t, threads'[t]);
    forall u: nat | u < |threads'| ensures ItemPC(m', u, threads'[u]) {
      assert ItemPC(m, u, threads[u]);
    }
    forall i: nat | i < |m'.slots| ensures SlotHeld(m', threads', i) {
      assert i < |m.slots| ==> SlotHeld(m, threads, i);
    }
    forall b: nat | b < |m'.blocks| ensures BlockHeld(m', threads', b) {
      assert BlockHeld(m, threads, b);
    }
  }

  lemma FindHands<T(!new)>(m: Memory<T>, threads: seq<PC>, t: nat, i: nat)
    requires MemoryInv(m) && HandsInv(m, threads) && t < |threads| && threads[t] == Find(i)
    ensures i / BLOCK_SIZE in m.index && HandsInv(m, threads[t := Read(i, m.index[i / BLOCK_SIZE])])
  {
    hide AtRead, ContentInv, DeliveredInv, FreedInv, DoneIn;
    assert ItemPC(m, t, threads[t]);
    BusyBlockIsLive(m, i);
    var threads' := threads[t := Read(i, m.index[i / BLOCK_SIZE])];
    ThreadsUpdate(threads, t, threads'[t]);
    forall u: nat | u < |threads'| ensures ItemPC(m, u, threads'[u]) {
      assert ItemPC(m, u, threads[u]);
    }
    forall k: nat | k < |m.slots| ensures SlotHeld(m, threads', k) {
      assert SlotHeld(m, threads, k);
    }
    forall b: nat | b < |m.blocks| ensures BlockHeld(m, threads', b) {
      assert BlockHeld(m, threads, b);
    }
  }

  /** The cell of an index being read holds its item. */
  lemma ReadInBounds<T(!new)>(m: Memory<T>, t: nat, i: nat, p: nat)
    requires MemoryInv(m) && ItemPC(m, t, Read(i, p))
    ensures InBlock(m, p) && m.cells[p][i % BLOCK_SIZE] == Some(m.written[i])
  {
    hide DoneIn, DeliveredInv, FreedInv, BlockInv, HomesInv;
    assert Waiting(m, i);
  }

  lemma ReceivedContent<T(!new)>(m: Memory<T>, t: nat, i: nat, p: nat)
    requires MemoryInv(m) && ItemPC(m, t, Read(i, p)) && InBlock(m, p) && m.cells[p][i % BLOCK_SIZE].Some?
    ensures var m' := Received(m, t, i, p); ShapeInv(m') && ContentInv(m')
  {
    var m' := Received(m, t, i, p);
    assert ShapeInv(m');
    forall k: nat | Waiting(m', k)
      ensures m'.cells[m'.homes[k / BLOCK_SIZE]][k % BLOCK_SIZE] == Some(m'.written[k])
    {
      assert Waiting(m, k) && k != i;
      CellsApart(m, i, k);
    }
    hide DoneIn, DeliveredInv, FreedInv, BlockInv, HomesInv;
  }

  lemma ReceivedDelivered<T(!new)>(m: Memory<T>, t: nat, i: nat, p: nat)
    requires ShapeInv(m) && DeliveredInv(m) && ItemPC(m, t, Read(i, p))
    requires InBlock(m, p) && m.cells[p][i % BLOCK_SIZE] == Some(m.written[i])
    ensures DeliveredInv(Received(m, t, i, p))
  {
    var m' := Received(m, t, i, p);
    forall k: nat | k < |m'.slots| && !m'.slots[k].use.Reading? ensures Got(m', k) {
      if k == i {
        assert m'.delivered[|m.delivered|].0 == i;
      } else {
        assert Got(m, k);
        var j :| 0 <= j < |m.delivered| && m.delivered[j].0 == k;
        assert m'.delivered[j].0 == k;
      }
    }
  }

  lemma ReceivedMemory<T(!new)>(m: Memory<T>, t: nat, i: nat, p: nat)
    requires MemoryInv(m) && ItemPC(m, t, Read(i, p))
    ensures InBlock(m, p) && m.cells[p][i % BLOCK_SIZE].Some? && MemoryInv(Received(m, t, i, p))
  {
    ReadInBounds(m, t, i, p);
    ReceivedContent(m, t, i, p);
    ReceivedDelivered(m, t, i, p);
    hide DoneIn, ContentInv, DeliveredInv;
    var m' := Received(m, t, i, p);
    forall b: nat | b < |m'.blocks| ensures BlockInv(m', b) {
      assert BlockInv(m, b);
      SlotUpdate(m.slots, i, Emptying(t), b);
    }
  }

  lemma ReceivedHands<T>(m: Memory<T>, threads: seq<PC>, t: nat, i: nat, p: nat)
    requires |m.homes| == |m.blocks| && HandsInv(m, threads) && t < |threads| && threads[t] == Read(i, p)
    requires InBlock(m, p) && m.cells[p][i % BLOCK_SIZE].Some?
    ensures SlotInBounds(m, i) && HandsInv(Received(m, t, i, p), threads[t := SetEmpty(i, p)])
  {
    hide AtRead;
    assert ItemPC(m, t, threads[t]);
    var m', threads' := Received(m, t, i, p), threads[t := SetEmpty(i, p)];
    ThreadsUpdate(threads, t, threads'[t]);
    forall u: nat | u < |threads'| ensures ItemPC(m', u, threads'[u]) {
      assert ItemPC(m, u, threads[u]);
    }
    forall k: nat | k < |m'.slots| ensures SlotHeld(m', threads', k) {
      assert SlotHeld(m, threads, k);
    }
    forall b: nat | b < |m'.blocks| ensures BlockHeld(m', threads', b) {
      assert BlockHeld(m, threads, b);
    }
  }

  lemma EmptiedBlocks<T(!new)>(m: Memory<T>, t: nat, i: nat, p: nat, b: nat)
    requires MemoryInv(m) && ItemPC(m, t, SetEmpty(i, p)) && b < |m.blocks|
    ensures InBlock(m, p)
    ensures var m' := Emptied(m, t, i, p); ShapeInv(m') && BlockInv(m', b)
  {
    BusyBlockIsLive(m, i);
    SlotUpdate(m.slots, i, Done, b);
    hide DoneIn, ContentInv, DeliveredInv, FreedInv;
    assert BlockInv(m, b) && BlockInv(m, i / BLOCK_SIZE);
  }

  /** Items in their cells are untouched by steps that touch no cell. */
  lemma ContentKept<T(!new)>(m: Memory<T>, m': Memory<T>)
    requires ShapeInv(m) && ShapeInv(m') && ContentInv(m) && |m'.slots| == |m.slots|
    requires m'.cells == m.cells && m'.homes == m.homes && m'.written == m.written
    requires forall i: nat :: i < |m.slots| ==> m'.slots[i].use.Reading? == m.slots[i].use.Reading?
    ensures ContentInv(m')
  {
    forall i: nat | Waiting(m', i)
      ensures m'.cells[m'.homes[i / BLOCK_SIZE]][i % BLOCK_SIZE] == Some(m'.written[i])
    {
      assert Waiting(m, i);
    }
  }

  lemma EmptiedHomes<T(!new)>(m: Memory<T>, t: nat, i: nat, p: nat)
    requires MemoryInv(m) && ItemPC(m, t, SetEmpty(i, p)) && InBlock(m, p)
    ensures var m' := Emptied(m, t, i, p); ShapeInv(m') && HomesInv(m') && FreedInv(m')
  {
    BusyBlockIsLive(m, i);
    hide DoneIn, BlockInv, ContentInv, DeliveredInv;
  }

  lemma EmptiedMemory<T(!new)>(m: Memory<T>, t: nat, i: nat, p: nat)
    requires MemoryInv(m) && ItemPC(m, t, SetEmpty(i, p))
    ensures InBlock(m, p) && MemoryInv(Emptied(m, t, i, p))
  {
    EmptiedBlocks(m, t, i, p, i / BLOCK_SIZE);
    EmptiedHomes(m, t, i, p);
    var m' := Emptied(m, t, i, p);
    hide DoneIn, BlockInv, ContentInv, DeliveredInv, HomesInv, FreedInv;
    ContentKept(m, m');
    DeliveredKept(m, m');
    forall b: nat | b < |m'.blocks| ensures BlockInv(m', b) {
      EmptiedBlocks(m, t, i, p, b);
    }
  }

  lemma EmptiedHands<T>(m: Memory<T>, threads: seq<PC>, t: nat, i: nat, p: nat)
    requires |m.homes| == |m.blocks| && HandsInv(m, threads) && t < |threads| && threads[t] == SetEmpty(i, p)
    requires SlotInBounds(m, i) && InBlock(m, p) && m.blocks[i / BLOCK_SIZE].Live?
    ensures HandsInv(Emptied(m, t, i, p), threads[t := if LastOne(m, p) then Clear(i / BLOCK_SIZE, p) else Idle])
  {
    assert ItemPC(m, t, threads[t]);
    hide AtRead, LastOne;
    var m' := Emptied(m, t, i, p);
    var threads' := threads[t := if LastOne(m, p) then Clear(i / BLOCK_SIZE, p) else Idle];
    ThreadsUpdate(threads, t, threads'[t]);
    forall u: nat | u < |threads'| ensures ItemPC(m', u, threads'[u]) {
      assert ItemPC(m, u, threads[u]);
    }
    forall k: nat | k < |m'.slots| ensures SlotHeld(m', threads', k) {
      assert SlotHeld(m, threads, k);
    }
    forall b: nat | b < |m'.blocks| ensures BlockHeld(m', threads', b) {
      assert BlockHeld(m, threads, b);
    }
  }

  lemma ClearMemory<T(!new)>(m: Memory<T>, t: nat, b: nat)
    requires MemoryInv(m) && b < |m.blocks| && m.blocks[b].Clearing?
    ensures MemoryInv(ClearedEntry(m, t, b))
  {
    hide DoneIn, ContentInv, DeliveredInv;
    var m' := ClearedEntry(m, t, b);
    assert ShapeInv(m') && HomesInv(m') && FreedInv(m');
    ContentKept(m, m');
    DeliveredKept(m, m');
    forall c: nat | c < |m'.blocks| ensures BlockInv(m', c) {
      assert BlockInv(m, c);
    }
  }

  lemma ReleaseMemory<T(!new)>(m: Memory<T>, b: nat)
    requires MemoryInv(m) && b < |m.blocks| && m.blocks[b].Releasing?
    ensures MemoryInv(Released(m, b, m.homes[b]))
  {
    hide DoneIn, ContentInv, DeliveredInv;
    var m' := Released(m, b, m.homes[b]);
    assert ShapeInv(m') && HomesInv(m') && FreedInv(m');
    ContentKept(m, m');
    DeliveredKept(m, m');
    forall c: nat | c < |m'.blocks| ensures BlockInv(m', c) {
      assert BlockInv(m, c);
    }
  }

  /** A consumer that hands its block on changes only that block's state. */
  lemma FreeHands<T>(m: Memory<T>, m': Memory<T>, threads: seq<PC>, t: nat, pc: PC, b: nat)
    requires |m.homes| == |m.blocks| && HandsInv(m, threads) && t < |threads|
    requires (threads[t].Clear? || threads[t].Release?) && threads[t].number == b && b < |m.blocks|
    requires m'.slots == m.slots && m'.homes == m.homes && m'.delivered == m.delivered
    requires m'.blocks == m.blocks[b := if pc.Release? then Releasing(t) else Freed]
    requires pc == Release(b, m.homes[b]) || pc == Idle
    ensures HandsInv(m', threads[t := pc])
  {
    hide AtRead;
    ThreadsUpdate(threads, t, pc);
    var threads' := threads[t := pc];
    assert ItemPC(m, t, threads[t]);
    forall u: nat | u < |threads'| ensures ItemPC(m', u, threads'[u]) {
      assert ItemPC(m, u, threads[u]);
    }
    forall i: nat | i < |m'.slots| ensures SlotHeld(m', threads', i) {
      assert SlotHeld(m, threads, i);
    }
    forall c: nat | c < |m'.blocks| ensures BlockHeld(m', threads', c) {
      assert BlockHeld(m, threads, c);
    }
  }

  // Steps of the producer

  lemma NewBlockContent<T(!new)>(m: Memory<T>, p: nat)
    requires MemoryInv(m) && p <= |m.cells| && (p in m.pool || p == |m.cells|)
    requires |m.written| == BLOCK_SIZE * |m.homes|
    ensures var m' := WithBlock(m, p); ShapeInv(m') && HomesInv(m') && ContentInv(m')
  {
    hide DoneIn;
    var m' := WithBlock(m, p);
    assert ShapeInv(m');
    assert HomesInv(m');
    forall k: nat | Waiting(m', k)
      ensures m'.cells[m'.homes[k / BLOCK_SIZE]][k % BLOCK_SIZE] == Some(m'.written[k])
    {
      assert Waiting(m, k);
    }
  }

  lemma NewBlockMemory<T(!new)>(m: Memory<T>, p: nat)
    requires MemoryInv(m) && p <= |m.cells| && (p in m.pool || p == |m.cells|)
    requires |m.written| == BLOCK_SIZE * |m.homes|
    ensures MemoryInv(WithBlock(m, p))
  {
    NewBlockContent(m, p);
    hide DoneIn, ContentInv, DeliveredInv, HomesInv;
    var m' := WithBlock(m, p);
    DeliveredKept(m, m');
    forall b: nat | b < |m'.blocks| ensures BlockInv(m', b) {
      NewBlockCounts(m, p, b);
    }
    hide BlockInv;
  }

  lemma NewBlockCounts<T(!new)>(m: Memory<T>, p: nat, b: nat)
    requires MemoryInv(m) && p <= |m.cells| && (p in m.pool || p == |m.cells|) && b <= |m.blocks|
    requires |m.written| == BLOCK_SIZE * |m.homes| && ShapeInv(WithBlock(m, p))
    ensures BlockInv(WithBlock(m, p), b)
  {
    NothingDone(m.slots, |m.blocks|);
    hide DoneIn, ContentInv, DeliveredInv, FreedInv;
    assert b < |m.blocks| ==> BlockInv(m, b);
  }

  lemma NothingDone(slots: seq<Slot>, b: nat)
    requires |slots| <= b * BLOCK_SIZE && forall i: nat :: i < |slots| ==> slots[i].block == i / BLOCK_SIZE
    ensures DoneIn(slots, b) == 0
  {
    assert forall i :: 0 <= i < |slots| ==> slots[i].block < b;
    SumZero(slots, DoneWeight(b));
  }

  lemma NewBlockHands<T>(m: Memory<T>, p: nat, threads: seq<PC>)
    requires |m.homes| == |m.blocks| && HandsInv(m, threads) && p <= |m.cells| == |m.consumed|
    ensures HandsInv(WithBlock(m, p), threads)
  {
    hide AtRead;
    var m' := WithBlock(m, p);
    forall u: nat | u < |threads| ensures ItemPC(m', u, threads[u]) {
      assert ItemPC(m, u, threads[u]);
    }
    forall i: nat | i < |m'.slots| ensures SlotHeld(m', threads, i) {
      assert SlotHeld(m, threads, i);
    }
    forall b: nat | b < |m'.blocks| ensures BlockHeld(m', threads, b) {
      assert b < |m.blocks| ==> BlockHeld(m, threads, b);
    }
  }

  lemma WriteContent<T(!new)>(m: Memory<T>, x: T)
    requires MemoryInv(m) && |m.written| < BLOCK_SIZE * |m.homes| && InBlock(m, m.homes[|m.homes| - 1])
    ensures var m' := Written(m, x); ShapeInv(m') && HomesInv(m') && ContentInv(m')
  {
    hide DoneIn, BlockInv, DeliveredInv, FreedInv;
    var m', i := Written(m, x), |m.written|;
    assert i / BLOCK_SIZE == |m.homes| - 1;
    assert ShapeInv(m') && HomesInv(m');
    hide HomesInv;
    forall k: nat | Waiting(m', k)
      ensures m'.cells[m'.homes[k / BLOCK_SIZE]][k % BLOCK_SIZE] == Some(m'.written[k])
    {
      if k != i {
        assert Waiting(m, k);
        CellsApart(m, i, k);
      }
    }
  }

  lemma WriteMemory<T(!new)>(m: Memory<T>, x: T)
    requires MemoryInv(m) && |m.written| < BLOCK_SIZE * |m.homes| && InBlock(m, m.homes[|m.homes| - 1])
    ensures MemoryInv(Written(m, x))
  {
    WriteContent(m, x);
    hide DoneIn, ContentInv, DeliveredInv, HomesInv;
    var m' := Written(m, x);
    DeliveredKept(m, m');
    forall b: nat | b < |m'.blocks| ensures BlockInv(m', b) {
      assert BlockInv(m, b);
    }
  }

  lemma WriteHands<T>(m: Memory<T>, x: T, threads: seq<PC>)
    requires |m.homes| == |m.blocks| && HandsInv(m, threads) && m.homes != [] && InBlock(m, m.homes[|m.homes| - 1])
    ensures HandsInv(Written(m, x), threads)
  {
    hide AtRead;
    var m' := Written(m, x);
    forall u: nat | u < |threads| ensures ItemPC(m', u, threads[u]) {
      assert ItemPC(m, u, threads[u]);
    }
    forall i: nat | i < |m'.slots| ensures SlotHeld(m', threads, i) {
      assert SlotHeld(m, threads, i);
    }
    forall b: nat | b < |m'.blocks| ensures BlockHeld(m', threads, b) {
      assert BlockHeld(m, threads, b);
    }
  }

  // Every step

  lemma ProducerStep<T(!new)>(s: State<T>, step: Step<T>)
    requires Inv(s) && Enabled(s, step) && (step.NewBlock? || step.Write? || step.PublishTail?)
    ensures Inv(Apply(s, step))
  {
    HeadWithinTail(s);
    match step
    case NewBlock(p) =>
      RoomIsRoom(s.q);
      NewBlockMemory(s.m, p);
      NewBlockHands(s.m, p, s.threads);
    case Write(x) =>
      WriteMemory(s.m, x);
      WriteHands(s.m, x, s.threads);
    case PublishTail => PublishTickets(s.q, s.threads);
    hide TicketInv, MemoryInv, HandsInv, Room;
  }

  /** The source's test keeps the queue shorter than 2^63. */
  lemma RoomIsRoom(q: Queue)
    requires q.head <= q.tail < q.head + TWO63 && Room(q)
    ensures q.tail + BLOCK_SIZE < q.head + TWO63
  {
    DifferenceOfResidues(q.head, q.tail + BLOCK_SIZE);
  }

  /** A consumer up to the decision whether its ticket is a claim. */
  predicate Deciding(pc: PC) {
    pc.Idle? || pc.LoadOver? || pc.Check? || pc.Ticket? || pc.Recheck? || pc.Overcommit?
  }

  lemma QuietStep<T(!new)>(s: State<T>, t: nat, pc: PC)
    requires Inv(s) && t < |s.threads| && Deciding(s.threads[t]) && !s.threads[t].Overcommit? && !s.threads[t].Recheck?
    requires OffItems(pc) && TicketPC(s.q, t, pc) && !pc.Claim? && !pc.Overcommit? && !pc.Recheck?
    ensures Inv(Goto(s, t, pc))
  {
    TicketsQuiet(s.q, s.q, s.threads, t, pc);
    HandsQuiet(s.m, s.threads, t, pc);
    hide TicketInv, MemoryInv, HandsInv;
  }

  lemma DecideStep<T(!new)>(s: State<T>, t: nat)
    requires Inv(s) && Enabled(s, Advance(t)) && Deciding(s.threads[t])
    ensures Inv(Advanced(s, t))
  {
    assert TicketPC(s.q, t, s.threads[t]);
    var pc := Advanced(s, t).threads[t];
    HandsQuiet(s.m, s.threads, t, pc);
    match s.threads[t]
    case LoadOver(tail) => QuietStep(s, t, pc);
    case Check(tail, over) => QuietStep(s, t, pc);
    case Ticket(over) => TicketStep(s.q, s.threads, t, over);
    case Recheck(over, mine) => RecheckStep(s.q, s.threads, t, over, mine);
    case Overcommit => TicketsQuiet(s.q, s.q.(overcommit := s.q.overcommit + 1), s.threads, t, Idle);
    hide TicketInv, MemoryInv, HandsInv, Admitted;
  }

  lemma ClaimStep<T(!new)>(s: State<T>, t: nat)
    requires Inv(s) && Enabled(s, Advance(t)) && s.threads[t].Claim?
    ensures Inv(Advanced(s, t))
  {
    HeadWithinTail(s);
    TicketsQuiet(s.q, s.q.(head := s.q.head + 1), s.threads, t, Find(s.q.head));
    ClaimMemory(s.m, t);
    assert |s.m.slots| / BLOCK_SIZE < |s.m.blocks|;
    ClaimHands(s.m, s.threads, t);
    hide TicketInv, MemoryInv, HandsInv;
  }

  lemma ItemStep<T(!new)>(s: State<T>, t: nat)
    requires Inv(s) && Enabled(s, Advance(t)) && HasIndex(s.threads[t])
    ensures Inv(Advanced(s, t))
  {
    var pc := Advanced(s, t).threads[t];
    TicketsQuiet(s.q, s.q, s.threads, t, pc);
    assert ItemPC(s.m, t, s.threads[t]);
    match s.threads[t]
    case Find(i) => FindHands(s.m, s.threads, t, i);
    case Read(i, p) =>
      ReceivedMemory(s.m, t, i, p);
      ReceivedHands(s.m, s.threads, t, i, p);
    case SetEmpty(i, p) =>
      BusyBlockIsLive(s.m, i);
      EmptiedMemory(s.m, t, i, p);
      EmptiedHands(s.m, s.threads, t, i, p);
    hide TicketInv, MemoryInv, HandsInv, LastOne;
  }

  lemma FreeStep<T(!new)>(s: State<T>, t: nat)
    requires Inv(s) && Enabled(s, Advance(t)) && (s.threads[t].Clear? || s.threads[t].Release?)
    ensures Inv(Advanced(s, t))
  {
    var pc := Advanced(s, t).threads[t];
    TicketsQuiet(s.q, s.q, s.threads, t, pc);
    assert ItemPC(s.m, t, s.threads[t]);
    match s.threads[t]
    case Clear(b, p) =>
      ClearMemory(s.m, t, b);
      FreeHands(s.m, ClearedEntry(s.m, t, b), s.threads, t, Release(b, p), b);
    case Release(b, p) =>
      ReleaseMemory(s.m, b);
      FreeHands(s.m, Released(s.m, b, p), s.threads, t, Idle, b);
    hide TicketInv, MemoryInv, HandsInv;
  }

  lemma NextKeepsInv<T(!new)>(s: State<T>, step: Step<T>)
    requires Inv(s)
    ensures Inv(Next(s, step))
  {
    if !Enabled(s, step) {
      return;
    }
    match step
    case Start(t) => QuietStep(s, t, LoadOver(s.q.tail));
    case Advance(t) =>
      if Deciding(s.threads[t]) {
        DecideStep(s, t);
      } else if s.threads[t].Claim? {
        ClaimStep(s, t);
      } else if HasIndex(s.threads[t]) {
        ItemStep(s, t);
      } else {
        FreeStep(s, t);
      }
    case _ => ProducerStep(s, step);
    hide Inv, Advanced, InBounds, InWindow, Room, WithBlock, Written;
  }

  // Every run, with any number of consumers

  lemma {:induction false} InvInEveryRun<T(!new)>(threads: nat, steps: seq<Step<T>>)
    ensures Inv(Exec(Init<T>(threads), steps))
  {
    if steps == [] {
      var s := Init<T>(threads);
      SumZero(s.threads, ClaimWeight());
      SumZero(s.threads, OvercommitWeight());
      SumZero(s.threads, ReadWeight());
      return;
    }
    hide Inv, Next;
    InvInEveryRun(threads, steps[..|steps| - 1]);
    NextKeepsInv(Exec(Init<T>(threads), steps[..|steps| - 1]), steps[|steps| - 1]);
  }

  /** Claims never pass the tail: in every run the indices handed out and the claims still to be turned into an
      index are at most the published items. */
  lemma ClaimsNeverPassTail<T(!new)>(threads: nat, steps: seq<Step<T>>)
    ensures var s := Exec(Init<T>(threads), steps);
            s.q.head + AtClaim(s.threads) <= s.q.tail <= |s.m.written|
  {
    InvInEveryRun(threads, steps);
    HeadWithinTail(Exec(Init<T>(threads), steps));
  }

  /** The queue stays shorter than 2^63, so the assertion at the start of a new block, that the tail is not behind
      the head, holds of the residues. */
  lemma QueueSizeBounded<T(!new)>(threads: nat, steps: seq<Step<T>>)
    ensures var q := Exec(Init<T>(threads), steps).q;
            q.head <= q.tail < q.head + TWO63 && !CircularLess(Res(q.tail), Res(q.head))
  {
    InvInEveryRun(threads, steps);
    var s := Exec(Init<T>(threads), steps);
    HeadWithinTail(s);
    CircularLessIsLess(s.q.tail, s.q.head);
  }

  /** Exactly-once delivery: in every run the deliveries are one for each claimed index that is not just being
      read, each with the item written at that index, and exactly one consumer is reading each of the others. */
  lemma DeliveredOnce<T(!new)>(threads: nat, steps: seq<Step<T>>)
    ensures var s := Exec(Init<T>(threads), steps);
            var d := s.m.delivered;
            && |d| + AtRead(s.threads) == s.q.head
            && (forall j :: 0 <= j < |d| ==>
                  d[j].0 < s.q.head && d[j].0 < |s.m.written| && d[j].1 == s.m.written[d[j].0])
            && (forall i, j :: 0 <= i < j < |d| ==> d[i].0 != d[j].0)
            && (forall i: nat :: i < s.q.head ==> Got(s.m, i) != BeingRead(s.threads, i))
            && (forall t, u :: 0 <= t < u < |s.threads| && Receiving(s.threads[t]) && Receiving(s.threads[u]) ==>
                  s.threads[t].index != s.threads[u].index)
  {
    InvInEveryRun(threads, steps);
    var s := Exec(Init<T>(threads), steps);
    hide Exec, TicketInv, AtRead, ContentInv, HomesInv, BlockInv;
    forall t, u | 0 <= t < u < |s.threads| && Receiving(s.threads[t]) && Receiving(s.threads[u])
      ensures s.threads[t].index != s.threads[u].index
    {
      assert ItemPC(s.m, t, s.threads[t]) && ItemPC(s.m, u, s.threads[u]);
    }
    forall i: nat | i < s.q.head ensures Got(s.m, i) != BeingRead(s.threads, i) {
      GotOrBeingRead(s.m, s.threads, i);
    }
  }

  predicate BeingRead(threads: seq<PC>, i: nat) {
    exists t :: 0 <= t < |threads| && Receiving(threads[t]) && threads[t].index == i
  }

  lemma GotOrBeingRead<T(!new)>(m: Memory<T>, threads: seq<PC>, i: nat)
    requires MemoryInv(m) && HandsInv(m, threads) && i < |m.slots|
    ensures Got(m, i) != BeingRead(threads, i)
  {
    hide AtRead, ContentInv, HomesInv, BlockInv, FreedInv;
    assert SlotHeld(m, threads, i);
    if m.slots[i].use.Reading? {
      assert Receiving(threads[m.slots[i].use.who]);
    }
    if BeingRead(threads, i) {
      var t :| 0 <= t < |threads| && Receiving(threads[t]) && threads[t].index == i;
      assert ItemPC(m, t, threads[t]);
    }
  }

  /** Each block is freed at most once, only when all of its 32 indices are done, and never while a consumer is
      still finding, reading or emptying one of them; a block whose indices are all done has been freed or is in
      the hands of the consumer that will; and no address in a consumer's hands is in the pool. */
  lemma BlocksFreedOnce<T(!new)>(threads: nat, steps: seq<Step<T>>)
    ensures var s := Exec(Init<T>(threads), steps);
            && (forall i, j :: 0 <= i < j < |s.m.freed| ==> s.m.freed[i] != s.m.freed[j])
            && (forall j :: 0 <= j < |s.m.freed| ==> DoneIn(s.m.slots, s.m.freed[j]) == BLOCK_SIZE)
            && (forall t :: 0 <= t < |s.threads| && HasIndex(s.threads[t]) ==>
                  s.threads[t].index / BLOCK_SIZE !in s.m.freed)
            && (forall t :: 0 <= t < |s.threads| && HasBlock(s.threads[t]) ==> s.threads[t].block !in s.m.pool)
            && (forall b: nat :: b < |s.m.blocks| && DoneIn(s.m.slots, b) == BLOCK_SIZE ==>
                  b in s.m.freed || FreedSoon(s.threads, b))
  {
    InvInEveryRun(threads, steps);
    var s := Exec(Init<T>(threads), steps);
    hide Exec, TicketInv, AtRead, ContentInv, DeliveredInv, DoneIn;
    forall j | 0 <= j < |s.m.freed| ensures DoneIn(s.m.slots, s.m.freed[j]) == BLOCK_SIZE {
      assert BlockInv(s.m, s.m.freed[j]);
      DoneAtMostClaimed(s.m.slots, s.m.freed[j]);
    }
    forall b: nat | b < |s.m.blocks| && DoneIn(s.m.slots, b) == BLOCK_SIZE
      ensures b in s.m.freed || FreedSoon(s.threads, b)
    {
      assert BlockInv(s.m, b) && BlockHeld(s.m, s.threads, b);
    }
    forall t: nat | t < |s.threads| && HasIndex(s.threads[t]) ensures s.threads[t].index / BLOCK_SIZE !in s.m.freed {
      assert ItemPC(s.m, t, s.threads[t]);
      BusyBlockIsLive(s.m, s.threads[t].index);
    }
    forall t: nat | t < |s.threads| && HasBlock(s.threads[t]) ensures s.threads[t].block !in s.m.pool {
      assert ItemPC(s.m, t, s.threads[t]);
      if HasIndex(s.threads[t]) {
        BusyBlockIsLive(s.m, s.threads[t].index);
      }
    }
  }

  predicate HasIndex(pc: PC) {
    pc.Find? || pc.Read? || pc.SetEmpty?
  }

  predicate HasBlock(pc: PC) {
    pc.Read? || pc.SetEmpty? || pc.Clear? || pc.Release?
  }

  predicate FreedSoon(threads: seq<PC>, b: nat) {
    exists t :: 0 <= t < |threads| && (threads[t].Clear? || threads[t].Release?) && threads[t].number == b
  }

  /** In every run a consumer finds the block of its index, its cell holds an item, and it raises a block's counter
      only from below the block size, as the assertion in `set_empty` says. The one access that can be refused here
      is a second comparison outside the window. */
  lemma AccessesInBounds<T(!new)>(threads: nat, steps: seq<Step<T>>, t: nat)
    requires t < |Exec(Init<T>(threads), steps).threads|
    ensures var s := Exec(Init<T>(threads), steps);
            && InBounds(s, t)
            && (s.threads[t].SetEmpty? ==> s.m.consumed[s.threads[t].block] < BLOCK_SIZE)
  {
    InvInEveryRun(threads, steps);
    var s := Exec(Init<T>(threads), steps);
    assert ItemPC(s.m, t, s.threads[t]) && TicketPC(s.q, t, s.threads[t]);
    hide Exec, TicketInv, HandsInv;
    match s.threads[t]
    case Find(i) => BusyBlockIsLive(s.m, i);
    case Read(i, p) => ReadInBounds(s.m, t, i, p);
    case SetEmpty(i, p) => BusyBlockIsLive(s.m, i);
    case _ =>
  }

  // What operations answer

  /** The two comparisons decide as the plain numbers would, within the windows of the circular comparison: a consumer
      turns away at the first only if the tickets out, less the failures it loaded, reach the tail it loaded, and takes
      its ticket for a claim at the second only if it is below the tail. */
  lemma ComparisonsAnswer<T>(s: State<T>, t: nat)
    requires t < |s.threads| && Enabled(s, Advance(t))
    ensures var pc := s.threads[t];
            && (pc.Check? ==>
                  var d := s.q.optimistic - pc.over - pc.tail;
                  && (Next(s, Advance(t)).threads[t] == Idle && 0 - d < TWO63 ==> d >= 0)
                  && (Next(s, Advance(t)).threads[t] == Ticket(pc.over) && d <= TWO63 ==> d < 0)
                  && Next(s, Advance(t)).threads[t] in {Idle, Ticket(pc.over)})
            && (pc.Recheck? ==>
                  var d := pc.mine - pc.over - s.q.tail;
                  && (Next(s, Advance(t)).threads[t] == Overcommit && 0 - d < TWO63 ==> d >= 0)
                  && (Next(s, Advance(t)).threads[t] == Claim ==> d < 0)
                  && Next(s, Advance(t)).threads[t] in {Claim, Overcommit})
  {
    var pc := s.threads[t];
    if pc.Check? {
      DifferenceOfResidues(s.q.optimistic, pc.over);
      CircularLessIsLess(s.q.optimistic - pc.over, pc.tail);
    } else if pc.Recheck? {
      DifferenceOfResidues(pc.mine, pc.over);
      CircularLessIsLess(pc.mine - pc.over, s.q.tail);
    }
    hide CircularLess, Minus, Res;
  }

  predicate Quiet<T>(s: State<T>) {
    forall u :: 0 <= u < |s.threads| ==> s.threads[u].Idle?
  }

  lemma {:induction false} AllDecided(fates: seq<Fate>)
    requires forall m :: 0 <= m < |fates| ==> !fates[m].Open?
    ensures Claims(fates) + Failures(fates) == |fates|
  {
    if fates != [] {
      AllDecided(fates[..|fates| - 1]);
    }
  }

  /** When nobody is dequeuing, the tickets issued are the indices handed out and the failures written off. */
  lemma QuietCounters<T(!new)>(s: State<T>)
    requires Inv(s) && Quiet(s)
    ensures s.q.optimistic == s.q.head + s.q.overcommit && s.q.head <= s.q.tail < s.q.head + TWO63
  {
    SumZero(s.threads, ClaimWeight());
    SumZero(s.threads, OvercommitWeight());
    HeadWithinTail(s);
    forall m | 0 <= m < |s.q.fates| ensures !s.q.fates[m].Open? {
      assert OpenHeld(s.q.fates, s.threads, m);
    }
    AllDecided(s.q.fates);
    hide Claims, Failures, FatesInv, MemoryInv, HandsInv;
  }

  /** The consumer's next n accesses with nothing in between. */
  function Advances<T>(s: State<T>, t: nat, n: nat): State<T> {
    if n == 0 then s else Next(Advances(s, t, n - 1), Advance(t))
  }

  lemma {:induction false} AdvancesKeepInv<T(!new)>(s: State<T>, t: nat, n: nat)
    requires Inv(s)
    ensures Inv(Advances(s, t, n))
  {
    hide Inv, Next;
    if n > 0 {
      AdvancesKeepInv(s, t, n - 1);
      NextKeepsInv(Advances(s, t, n - 1), Advance(t));
    }
  }

  lemma CompareQuiet(q: Queue)
    requires q.optimistic == q.head + q.overcommit && q.head <= q.tail < q.head + TWO63
    ensures CircularLess(Minus(Res(q.optimistic), Res(q.overcommit)), Res(q.tail)) <==> q.head < q.tail
  {
    DifferenceOfResidues(q.optimistic, q.overcommit);
    CircularLessIsLess(q.head, q.tail);
  }

  /** The first three accesses: the loads and the first comparison. */
  lemma LookIn<T>(s: State<T>, t: nat)
    requires t < |s.threads| && s.threads[t].Idle?
    requires s.q.optimistic == s.q.head + s.q.overcommit && s.q.head <= s.q.tail < s.q.head + TWO63
    ensures Advances(Next(s, Start(t)), t, 2)
         == Goto(s, t, if s.q.head < s.q.tail then Ticket(s.q.overcommit) else Idle)
  {
    CompareQuiet(s.q);
    hide CircularLess, Minus, Res;
    var s1 := Next(s, Start(t));
    assert s1 == Goto(s, t, LoadOver(s.q.tail));
    assert Advances(s1, t, 1) == Next(Advances(s1, t, 0), Advance(t)) == Goto(s, t, Check(s.q.tail, s.q.overcommit));
  }

  /** From a ticket that will be admitted to the index. */
  lemma TakeIndex<T>(s: State<T>, t: nat)
    requires t < |s.threads| && s.threads[t] == Ticket(s.q.overcommit) && |s.q.fates| == s.q.optimistic
    requires s.q.optimistic == s.q.head + s.q.overcommit && s.q.head < s.q.tail < s.q.head + TWO63
    ensures var s' := Advances(s, t, 3);
            && s'.threads == s.threads[t := Find(s.q.head)]
            && s'.m == ClaimedSlot(s.m, t) && s'.q.head == s.q.head + 1 && s'.q.tail == s.q.tail
  {
    CompareQuiet(s.q);
    hide CircularLess, Minus, Res;
    var (over, mine) := (s.q.overcommit, s.q.optimistic);
    var s1 := Advances(s, t, 1);
    assert s1 == Next(Advances(s, t, 0), Advance(t)) == Goto(s, t, Recheck(over, mine)).(q := DoTicket(s.q, t));
    assert Admitted(s1.q, over, mine);
    var s2 := Advances(s, t, 2);
    assert s2 == Next(s1, Advance(t)) == Goto(s1, t, Claim).(q := DoRecheck(s1.q, over, mine));
    assert Advances(s, t, 3) == Next(s2, Advance(t));
  }

  lemma FindAnswers<T(!new)>(s: State<T>, t: nat, i: nat)
    requires Inv(s) && t < |s.threads| && s.threads[t] == Find(i)
    ensures i / BLOCK_SIZE in s.m.index && Next(s, Advance(t)) == Goto(s, t, Read(i, s.m.index[i / BLOCK_SIZE]))
  {
    FindHands(s.m, s.threads, t, i);
    hide Inv, TicketInv, MemoryInv, HandsInv;
  }

  lemma ReadAnswers<T(!new)>(s: State<T>, t: nat, i: nat, p: nat)
    requires Inv(s) && t < |s.threads| && s.threads[t] == Read(i, p)
    ensures i < |s.m.written|
    ensures var s' := Next(s, Advance(t));
            && s'.threads == s.threads[t := SetEmpty(i, p)] && s'.q == s.q && s'.m.written == s.m.written
            && s'.m.delivered == s.m.delivered + [(i, s.m.written[i])]
  {
    assert ItemPC(s.m, t, s.threads[t]);
    ReadInBounds(s.m, t, i, p);
    assert |s.m.slots| <= |s.m.written|;
    hide Inv, TicketInv, MemoryInv, HandsInv;
  }

  /** From the index to the item. */
  lemma TakeItem<T(!new)>(s: State<T>, t: nat, i: nat)
    requires Inv(s) && t < |s.threads| && s.threads[t] == Find(i)
    ensures i < |s.m.written|
    ensures var s' := Advances(s, t, 2);
            && Inv(s') && s'.m.delivered == s.m.delivered + [(i, s.m.written[i])]
            && s'.q == s.q && s'.m.written == s.m.written
            && t < |s'.threads| && s'.threads[t].SetEmpty? && s'.threads == s.threads[t := s'.threads[t]]
  {
    hide Inv, Next;
    FindAnswers(s, t, i);
    NextKeepsInv(s, Advance(t));
    var s1 := Next(s, Advance(t));
    ReadAnswers(s1, t, i, s1.threads[t].block);
    NextKeepsInv(s1, Advance(t));
    assert Advances(s, t, 1) == Next(Advances(s, t, 0), Advance(t)) == s1;
    assert Advances(s, t, 2) == Next(s1, Advance(t));
  }

  /** A dequeue answers: from every reachable state in which nobody else is dequeuing, it receives the item at the
      head if there is one, and otherwise returns with everything as it was. */
  lemma DequeueAnswers<T(!new)>(threads: nat, steps: seq<Step<T>>, t: nat)
    requires var s := Exec(Init<T>(threads), steps); Quiet(s) && t < |s.threads|
    ensures var s := Exec(Init<T>(threads), steps);
            && s.q.head <= s.q.tail <= |s.m.written|
            && (s.q.head < s.q.tail ==>
                  var s' := Advances(Next(s, Start(t)), t, 7);
                  && s'.m.delivered == s.m.delivered + [(s.q.head, s.m.written[s.q.head])]
                  && s'.q.head == s.q.head + 1 && s'.q.tail == s.q.tail && s'.m.written == s.m.written)
            && (s.q.head == s.q.tail ==> Advances(Next(s, Start(t)), t, 2) == s)
  {
    InvInEveryRun(threads, steps);
    hide Exec;
    DequeueFrom(Exec(Init<T>(threads), steps), t);
  }

  lemma DequeueFrom<T(!new)>(s: State<T>, t: nat)
    requires Inv(s) && Quiet(s) && t < |s.threads|
    ensures s.q.head <= s.q.tail <= |s.m.written|
    ensures s.q.head < s.q.tail ==>
              var s' := Advances(Next(s, Start(t)), t, 7);
              && s'.m.delivered == s.m.delivered + [(s.q.head, s.m.written[s.q.head])]
              && s'.q.head == s.q.head + 1 && s'.q.tail == s.q.tail && s'.m.written == s.m.written
    ensures s.q.head == s.q.tail ==> Advances(Next(s, Start(t)), t, 2) == s
  {
    QuietCounters(s);
    assert s.q.tail <= |s.m.written| && |s.q.fates| == s.q.optimistic;
    hide Inv, Next;
    LookIn(s, t);
    NextKeepsInv(s, Start(t));
    var s1 := Next(s, Start(t));
    AdvancesKeepInv(s1, t, 5);
    if s.q.head < s.q.tail {
      TakeIndex(Advances(s1, t, 2), t);
      AdvancesCompose(s1, t, 2, 3);
      TakeItem(Advances(s1, t, 5), t, s.q.head);
      AdvancesCompose(s1, t, 5, 2);
    } else {
      assert s.threads[t := Idle] == s.threads;
    }
    hide Advances;
  }

  lemma {:induction false} AdvancesCompose<T>(s: State<T>, t: nat, m: nat, n: nat)
    ensures Advances(s, t, m + n) == Advances(Advances(s, t, m), t, n)
  {
    hide Next;
    if n > 0 {
      AdvancesCompose(s, t, m, n - 1);
    }
  }

  /** After the item a consumer gives the index back, and with the last one of a block the block: it is idle again
      after one access or three, and in the second case the block is in the pool and its number out of the index. */
  lemma GivesBack<T(!new)>(s: State<T>, t: nat, i: nat, p: nat)
    requires Inv(s) && t < |s.threads| && s.threads[t] == SetEmpty(i, p)
    ensures p < |s.m.consumed|
    ensures var (one, three) := (Advances(s, t, 1), Advances(s, t, 3));
            if s.m.consumed[p] == BLOCK_SIZE - 1
            then three.threads == s.threads[t := Idle] && p in three.m.pool && i / BLOCK_SIZE !in three.m.index
            else one.threads == s.threads[t := Idle] && one.m.pool == s.m.pool && one.m.index == s.m.index
  {
    EmptyAnswers(s, t, i, p);
    hide Inv, Next, Emptied;
    var s1 := Next(s, Advance(t));
    assert Advances(s, t, 1) == Next(Advances(s, t, 0), Advance(t)) == s1;
    if s.m.consumed[p] == BLOCK_SIZE - 1 {
      FreeAnswers(s1, t, i / BLOCK_SIZE, p);
      assert Advances(s, t, 2) == Next(s1, Advance(t));
      assert Advances(s, t, 3) == Next(Advances(s, t, 2), Advance(t));
    }
  }

  lemma EmptyAnswers<T(!new)>(s: State<T>, t: nat, i: nat, p: nat)
    requires Inv(s) && t < |s.threads| && s.threads[t] == SetEmpty(i, p)
    ensures SlotInBounds(s.m, i) && InBlock(s.m, p)
    ensures var s' := Next(s, Advance(t));
            && s'.threads[t := Idle] == s.threads[t := Idle] && |s'.threads| == |s.threads|
            && s'.threads[t] == (if s.m.consumed[p] == BLOCK_SIZE - 1 then Clear(i / BLOCK_SIZE, p) else Idle)
            && |s'.m.blocks| == |s.m.blocks| && s'.m.pool == s.m.pool && s'.m.index == s.m.index
  {
    assert ItemPC(s.m, t, s.threads[t]);
    BusyBlockIsLive(s.m, i);
    EmptiedMemory(s.m, t, i, p);
    hide Inv, TicketInv, MemoryInv, HandsInv;
  }

  lemma FreeAnswers<T>(s: State<T>, t: nat, b: nat, p: nat)
    requires t < |s.threads| && s.threads[t] == Clear(b, p) && b < |s.m.blocks|
    ensures var s' := Next(Next(s, Advance(t)), Advance(t));
            s'.threads == s.threads[t := Idle] && p in s'.m.pool && b !in s'.m.index
  {
    var s1 := Next(s, Advance(t));
    assert s1 == Goto(s, t, Release(b, p)).(m := ClearedEntry(s.m, t, b));
  }

  /** An enqueue answers: from every reachable state in which the producer is between items, its steps append the item
      and publish it, taking a block first if the last one is full and the source's test finds room. */
  lemma EnqueueAnswers<T(!new)>(threads: nat, steps: seq<Step<T>>, x: T, p: nat)
    requires var s := Exec(Init<T>(threads), steps);
             && |s.m.written| == s.q.tail
             && (s.q.tail == BLOCK_SIZE * |s.m.homes| ==> Room(s.q) && (p in s.m.pool || p == |s.m.cells|))
    ensures var s := Exec(Init<T>(threads), steps);
            var ready := if s.q.tail == BLOCK_SIZE * |s.m.homes| then Next(s, NewBlock(p)) else s;
            var s' := Next(Next(ready, Write(x)), PublishTail);
            && s'.m.written == s.m.written + [x] && s'.q == s.q.(tail := s.q.tail + 1)
            && s'.threads == s.threads && s'.m.delivered == s.m.delivered
  {
    InvInEveryRun(threads, steps);
    var s := Exec(Init<T>(threads), steps);
    hide Exec;
    if s.q.tail == BLOCK_SIZE * |s.m.homes| {
      NextKeepsInv(s, NewBlock(p));
      assert Next(s, NewBlock(p)) == s.(m := WithBlock(s.m, p));
      WriteAnswers(Next(s, NewBlock(p)), x);
    } else {
      WriteAnswers(s, x);
    }
    hide Inv, Next, Room;
  }

  lemma WriteAnswers<T(!new)>(s: State<T>, x: T)
    requires Inv(s) && |s.m.written| == s.q.tail < BLOCK_SIZE * |s.m.homes|
    ensures var s' := Next(Next(s, Write(x)), PublishTail);
            && s'.m.written == s.m.written + [x] && s'.q == s.q.(tail := s.q.tail + 1)
            && s'.threads == s.threads && s'.m.delivered == s.m.delivered
  {
    assert InBlock(s.m, s.m.homes[|s.m.homes| - 1]);
    assert Next(s, Write(x)) == s.(m := Written(s.m, x));
    hide Inv, TicketInv, MemoryInv, HandsInv;
  }

  /** The source's test for room, in plain numbers. */
  lemma RoomIff<T(!new)>(threads: nat, steps: seq<Step<T>>)
    ensures var q := Exec(Init<T>(threads), steps).q; Room(q) <==> q.tail + BLOCK_SIZE < q.head + TWO63
  {
    QueueSizeBounded(threads, steps);
    var q := Exec(Init<T>(threads), steps).q;
    DifferenceOfResidues(q.head, q.tail + BLOCK_SIZE);
    hide Exec;
  }
}
