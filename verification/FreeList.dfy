/** The lock-free free list under the move queue (FreeList in concurrentqueue.h): any number of threads, one
    atomic memory access per step, in any interleaving. Nodes are numbered; null is None. */
module FreeLists {
  import opened Sums
  import opened Common

  const SHOULD_BE_ON_FREELIST: nat := 0x8000_0000
  const REFS: nat := 0x8000_0000

  /** Where `add_knowing_refcount_is_zero` returns to: the end of `add`, or the loop of `try_get`. */
  datatype Cont = Return | Resume(head: Option<nat>)

  /** Program counters, named by the access about to be made, with the local variables still needed. */
  datatype PC =
    | Idle
    | Reload
    | LoadRefs(seen: Option<nat>)
    | Ref(node: nat, refs: nat)
    | LoadNext(node: nat)
    | Pop(node: nat, next: Option<nat>)
    | UnrefTwice(node: nat)
    | Unref(node: nat, seen: Option<nat>)
    | LoadHead(node: nat, cont: Cont)
    | Link(node: nat, head: Option<nat>, cont: Cont)
    | Publish(node: nat, head: Option<nat>, cont: Cont)
    | Push(node: nat, head: Option<nat>, cont: Cont)
    | Retract(node: nat, head: Option<nat>, cont: Cont)

  /** Whose responsibility a node is. Kept for the proof: `add` may be called only on a node that is Out
      (its caller took it, or it is new), and no other transition reads it. */
  datatype Status = Out | Taken(who: nat) | Listed | Adding(who: nat) | Publishing(who: nat) | Pending

  datatype Event = Handed(node: nat) | Added(node: nat)

  /** `stack` lists the nodes reachable from the head; `log` records completed gets and started adds. */
  datatype State = State(
    head: Option<nat>,
    refs: seq<nat>,
    next: seq<Option<nat>>,
    threads: seq<PC>,
    status: seq<Status>,
    stack: seq<nat>,
    log: seq<Event>)

  datatype Step = Get(t: nat) | Add(t: nat, node: nat) | Advance(t: nat)

  function Init(nodes: nat, threads: nat): State {
    State(None, seq(nodes, _ => 0), seq(nodes, _ => None), seq(threads, _ => Idle), seq(nodes, _ => Out), [], [])
  }

  predicate Known(s: State, n: Option<nat>) {
    n.Some? ==> n.value < |s.refs|
  }

  predicate HasNode(pc: PC) {
    !pc.Idle? && !pc.Reload? && !pc.LoadRefs?
  }

  /** All arrays have one slot per node, and the thread's local pointers are nodes. */
  predicate InBounds(s: State, t: nat) {
    && t < |s.threads|
    && |s.refs| == |s.next| == |s.status|
    && (s.threads[t].LoadRefs? ==> Known(s, s.threads[t].seen))
    && (HasNode(s.threads[t]) ==> s.threads[t].node < |s.refs|)
  }

  predicate Enabled(s: State, step: Step) {
    && InBounds(s, step.t)
    && match step
       case Get(t) => s.threads[t].Idle?
       case Add(t, n) => s.threads[t].Idle? && n < |s.status| && s.status[n].Out?
       case Advance(t) => !s.threads[t].Idle?
  }

  function Goto(s: State, t: nat, pc: PC): State
    requires t < |s.threads|
  {
    s.(threads := s.threads[t := pc])
  }

  function After(cont: Cont): PC {
    match cont
    case Return => Idle
    case Resume(head) => LoadRefs(head)
  }

  /** Unsigned 32-bit addition. */
  function Plus(x: nat, d: int): nat {
    (x + d) % TWO32
  }

  function DoRef(s: State, t: nat, n: nat, r: nat): State
    requires InBounds(s, t) && n < |s.refs|
  {
    if s.refs[n] == r then Goto(s, t, LoadNext(n)).(refs := s.refs[n := Plus(r, 1)]) else Goto(s, t, Reload)
  }

  function DoPop(s: State, t: nat, n: nat, next: Option<nat>): State
    requires InBounds(s, t) && n < |s.refs|
  {
    if s.head == Some(n)
    then Goto(s, t, UnrefTwice(n)).(head := next, status := s.status[n := Taken(t)],
                                    stack := if s.stack == [] then [] else s.stack[1..])
    else Goto(s, t, Unref(n, s.head))
  }

  function DoUnrefTwice(s: State, t: nat, n: nat): State
    requires InBounds(s, t) && n < |s.refs|
  {
    Goto(s, t, Idle).(refs := s.refs[n := Plus(s.refs[n], -2)],
                      status := s.status[n := Out],
                      log := s.log + [Handed(n)])
  }

  function DoUnref(s: State, t: nat, n: nat, seen: Option<nat>): State
    requires InBounds(s, t) && n < |s.refs|
  {
    var s' := s.(refs := s.refs[n := Plus(s.refs[n], -1)]);
    if s.refs[n] == SHOULD_BE_ON_FREELIST + 1
    then Goto(s', t, LoadHead(n, Resume(seen))).(status := s.status[n := Adding(t)])
    else Goto(s', t, LoadRefs(seen))
  }

  function DoPublish(s: State, t: nat, n: nat, head: Option<nat>, cont: Cont): State
    requires InBounds(s, t) && n < |s.refs|
  {
    Goto(s, t, Push(n, head, cont)).(refs := s.refs[n := 1], status := s.status[n := Publishing(t)])
  }

  function DoPush(s: State, t: nat, n: nat, head: Option<nat>, cont: Cont): State
    requires InBounds(s, t) && n < |s.refs|
  {
    if s.head == head
    then Goto(s, t, After(cont)).(head := Some(n), status := s.status[n := Listed], stack := [n] + s.stack)
    else Goto(s, t, Retract(n, s.head, cont))
  }

  function DoRetract(s: State, t: nat, n: nat, head: Option<nat>, cont: Cont): State
    requires InBounds(s, t) && n < |s.refs|
  {
    var s' := s.(refs := s.refs[n := Plus(s.refs[n], SHOULD_BE_ON_FREELIST - 1)]);
    if s.refs[n] == 1
    then Goto(s', t, Link(n, head, cont)).(status := s.status[n := Adding(t)])
    else Goto(s', t, After(cont)).(status := s.status[n := Pending])
  }

  function DoAdd(s: State, t: nat, n: nat): State
    requires InBounds(s, t) && n < |s.refs|
  {
    var s' := s.(refs := s.refs[n := Plus(s.refs[n], SHOULD_BE_ON_FREELIST)], log := s.log + [Added(n)]);
    if s.refs[n] == 0
    then Goto(s', t, LoadHead(n, Return)).(status := s.status[n := Adding(t)])
    else s'.(status := s.status[n := Pending])
  }

  function Apply(s: State, step: Step): State
    requires Enabled(s, step)
  {
    match step
    case Get(t) => Goto(s, t, LoadRefs(s.head))
    case Add(t, n) => DoAdd(s, t, n)
    case Advance(t) =>
      match s.threads[t]
      case Reload => Goto(s, t, LoadRefs(s.head))
      case LoadRefs(seen) =>
        if seen.None? then Goto(s, t, Idle)
        else if s.refs[seen.value] % REFS == 0 then Goto(s, t, Reload)
        else Goto(s, t, Ref(seen.value, s.refs[seen.value]))
      case Ref(n, r) => DoRef(s, t, n, r)
      case LoadNext(n) => Goto(s, t, Pop(n, s.next[n]))
      case Pop(n, next) => DoPop(s, t, n, next)
      case UnrefTwice(n) => DoUnrefTwice(s, t, n)
      case Unref(n, seen) => DoUnref(s, t, n, seen)
      case LoadHead(n, cont) => Goto(s, t, Link(n, s.head, cont))
      case Link(n, head, cont) => Goto(s, t, Publish(n, head, cont)).(next := s.next[n := head])
      case Publish(n, head, cont) => DoPublish(s, t, n, head, cont)
      case Push(n, head, cont) => DoPush(s, t, n, head, cont)
      case Retract(n, head, cont) => DoRetract(s, t, n, head, cont)
  }

  function Next(s: State, step: Step): State {
    if Enabled(s, step) then Apply(s, step) else s
  }

  function Exec(s: State, steps: seq<Step>): State {
    if steps == [] then s else Next(Exec(s, steps[..|steps| - 1]), steps[|steps| - 1])
  }

  // The invariant

  /** The thread holds one reference to node n: it raised the count and has not lowered it yet. */
  predicate Holds(pc: PC, n: nat) {
    (pc.LoadNext? || pc.Pop? || pc.Unref?) && pc.node == n
  }

  function HoldWeight(n: nat): PC -> int {
    (pc: PC) => if Holds(pc, n) then 1 else 0
  }

  function HolderCount(threads: seq<PC>, n: nat): int {
    Sum(threads, HoldWeight(n))
  }

  /** The status that a thread's program counter gives to its node. */
  function Duty(t: nat, pc: PC): Option<Status> {
    if pc.UnrefTwice? then Some(Taken(t))
    else if pc.LoadHead? || pc.Link? || pc.Publish? then Some(Adding(t))
    else if pc.Push? || pc.Retract? then Some(Publishing(t))
    else None
  }

  /** The reference count of a node, from its status and the number of holders. */
  predicate CountFits(refs: nat, status: Status, holders: int) {
    match status
    case Out => refs == holders
    case Taken(_) => refs == holders + 2
    case Listed => refs == holders + 1
    case Publishing(_) => refs == holders + 1
    case Adding(_) => refs == SHOULD_BE_ON_FREELIST && holders == 0
    case Pending => refs == SHOULD_BE_ON_FREELIST + holders && 0 < holders
  }

  /** A node in a thread's hands is the node that thread works on. */
  predicate DutyHeld(s: State, n: nat)
    requires n < |s.status|
  {
    var duty := s.status[n];
    (duty.Taken? || duty.Adding? || duty.Publishing?) ==>
      && duty.who < |s.threads| && HasNode(s.threads[duty.who]) && s.threads[duty.who].node == n
      && Duty(duty.who, s.threads[duty.who]) == Some(duty)
  }

  predicate ThreadInv(s: State, t: nat) {
    && InBounds(s, t)
    && (var pc := s.threads[t];
        && (pc.Ref? ==> pc.refs % REFS != 0)
        && (pc.Pop? ==> pc.next == s.next[pc.node] && Known(s, pc.next))
        && (pc.Unref? ==> Known(s, pc.seen))
        && (pc.Link? || pc.Publish? || pc.Push? || pc.Retract? ==> Known(s, pc.head))
        && (pc.Publish? || pc.Push? ==> s.next[pc.node] == pc.head)
        && ((pc.LoadHead? || pc.Link? || pc.Publish? || pc.Push? || pc.Retract?) && pc.cont.Resume? ==>
              Known(s, pc.cont.head))
        && (Duty(t, pc).Some? ==> s.status[pc.node] == Duty(t, pc).value))
  }

  function LastAbout(log: seq<Event>, n: nat): Option<Event> {
    if log == [] then None
    else if log[|log| - 1].node == n then Some(log[|log| - 1])
    else LastAbout(log[..|log| - 1], n)
  }

  ghost predicate NodeInv(s: State, n: nat)
    requires n < |s.refs| && |s.refs| == |s.status| == |s.next|
  {
    && CountFits(s.refs[n], s.status[n], HolderCount(s.threads, n))
    && DutyHeld(s, n)
    && Known(s, s.next[n])
    && (n in s.stack <==> s.status[n].Listed?)
    && (s.status[n].Out? <==> LastAbout(s.log, n) != Some(Added(n)))
  }

  predicate Linked(head: Option<nat>, next: seq<Option<nat>>, stack: seq<nat>)
    decreases stack
  {
    if stack == [] then head.None?
    else head == Some(stack[0]) && stack[0] < |next| && Linked(next[stack[0]], next, stack[1..])
  }

  predicate NoDuplicates(stack: seq<nat>) {
    forall i, j :: 0 <= i < j < |stack| ==> stack[i] != stack[j]
  }

  /** A hand-out of a node never follows another one with no add of that node between them. */
  ghost predicate HandedOnce(log: seq<Event>) {
    forall i :: 0 <= i < |log| && log[i].Handed? ==> LastAbout(log[..i], log[i].node) == Some(Added(log[i].node))
  }

  ghost predicate Inv(s: State) {
    && |s.refs| == |s.status| == |s.next| && |s.threads| < REFS - 2
    && Known(s, s.head)
    && (forall t: nat :: t < |s.threads| ==> ThreadInv(s, t))
    && (forall n: nat :: n < |s.refs| ==> NodeInv(s, n))
    && Linked(s.head, s.next, s.stack) && NoDuplicates(s.stack)
    && HandedOnce(s.log)
  }

  // Counting holders

  lemma HoldersAfter(threads: seq<PC>, t: nat, pc: PC, n: nat)
    requires t < |threads|
    ensures HolderCount(threads[t := pc], n)
         == HolderCount(threads, n) - (if Holds(threads[t], n) then 1 else 0) + (if Holds(pc, n) then 1 else 0)
  {
    SumUpdate(threads, t, pc, HoldWeight(n));
  }

  lemma HolderBounds(threads: seq<PC>, n: nat)
    ensures 0 <= HolderCount(threads, n) <= |threads|
    ensures forall t :: 0 <= t < |threads| && Holds(threads[t], n) ==> 1 <= HolderCount(threads, n)
    ensures 0 < HolderCount(threads, n) ==> exists t :: 0 <= t < |threads| && Holds(threads[t], n)
  {
    SumNonNegative(threads, HoldWeight(n));
    SumAtMostLength(threads, HoldWeight(n));
    forall t | 0 <= t < |threads| && Holds(threads[t], n) ensures 1 <= HolderCount(threads, n) {
      SumAtLeast(threads, t, HoldWeight(n));
    }
    if 0 < HolderCount(threads, n) {
      var t := SumPositive(threads, HoldWeight(n));
      assert Holds(threads[t], n);
    }
  }

  // What a step leaves alone

  /** A step of thread t that touches no node other than m. */
  predicate Local(s: State, s': State, t: nat, m: nat) {
    && t < |s.threads| && m < |s.refs| == |s.status| == |s.next|
    && |s'.refs| == |s.refs| && |s'.status| == |s.status| && |s'.next| == |s.next| && |s'.threads| == |s.threads|
    && s'.threads == s.threads[t := s'.threads[t]]
    && s'.refs == s.refs[m := s'.refs[m]]
    && s'.status == s.status[m := s'.status[m]]
    && (HasNode(s.threads[t]) ==> s.threads[t].node == m)
    && (HasNode(s'.threads[t]) ==> s'.threads[t].node == m)
  }

  lemma OtherNodes(s: State, s': State, t: nat, m: nat, n: nat)
    requires Inv(s) && Local(s, s', t, m) && n < |s.refs| && n != m
    requires s'.next[n] == s.next[n]
    requires n in s'.stack <==> n in s.stack
    requires LastAbout(s'.log, n) == LastAbout(s.log, n)
    ensures NodeInv(s', n)
  {
    hide LastAbout, HolderCount, HandedOnce, Linked;
    assert NodeInv(s, n);
    HoldersAfter(s.threads, t, s'.threads[t], n);
  }

  /** Another thread notices only its own node, and only if that node was not in its hands. */
  lemma OtherThreads(s: State, s': State, t: nat, m: nat, u: nat)
    requires Inv(s) && Local(s, s', t, m) && u < |s.threads| && u != t
    requires s'.next == s.next || (s'.next == s.next[m := s'.next[m]] && s.status[m] == Adding(t))
    requires s'.status[m] == s.status[m]
             || s.status[m] == Taken(t) || s.status[m] == Adding(t) || s.status[m] == Publishing(t)
             || s.status[m].Out? || s.status[m].Listed? || s.status[m].Pending?
    ensures ThreadInv(s', u)
  {
    hide LastAbout, HolderCount, HandedOnce, Linked;
    assert ThreadInv(s, u);
    assert NodeInv(s, m);
    HolderBounds(s.threads, m);
  }

  /** Thread and node at hand, and everything else by the two lemmas above. */
  lemma LocalStep(s: State, s': State, t: nat, m: nat)
    requires Inv(s) && Local(s, s', t, m) && Known(s', s'.head)
    requires s'.next == s.next || (s'.next == s.next[m := s'.next[m]] && s.status[m] == Adding(t))
    requires s'.status[m] == s.status[m]
             || s.status[m] == Taken(t) || s.status[m] == Adding(t) || s.status[m] == Publishing(t)
             || s.status[m].Out? || s.status[m].Listed? || s.status[m].Pending?
    requires forall n: nat :: n != m ==> (n in s'.stack <==> n in s.stack)
    requires forall n: nat :: n != m ==> LastAbout(s'.log, n) == LastAbout(s.log, n)
    requires ThreadInv(s', t) && NodeInv(s', m)
    requires Linked(s'.head, s'.next, s'.stack) && NoDuplicates(s'.stack) && HandedOnce(s'.log)
    ensures Inv(s')
  {
    hide LastAbout, HandedOnce, Linked, NodeInv, ThreadInv;
    forall n: nat | n < |s'.refs| ensures NodeInv(s', n) {
      if n != m {
        OtherNodes(s, s', t, m, n);
      }
    }
    forall u: nat | u < |s'.threads| ensures ThreadInv(s', u) {
      if u != t {
        OtherThreads(s, s', t, m, u);
      }
    }
  }

  /** A step that only moves a program counter with no node and no duty. */
  lemma QuietStep(s: State, t: nat, pc: PC)
    requires Inv(s) && t < |s.threads| && !HasNode(s.threads[t])
    requires pc.Idle? || pc.Reload? || (pc.LoadRefs? && Known(s, pc.seen))
             || (pc.Ref? && pc.node < |s.refs| && pc.refs % REFS != 0)
    ensures Inv(Goto(s, t, pc))
  {
    hide LastAbout, HolderCount, HandedOnce, Linked;
    var s' := Goto(s, t, pc);
    forall n: nat | n < |s'.refs| ensures NodeInv(s', n) {
      assert NodeInv(s, n);
      HoldersAfter(s.threads, t, pc, n);
    }
    forall u: nat | u < |s'.threads| ensures ThreadInv(s', u) {
      assert ThreadInv(s, u);
    }
  }

  // One lemma per access

  lemma RefStep(s: State, t: nat, n: nat, r: nat)
    requires Inv(s) && t < |s.threads| && s.threads[t] == Ref(n, r)
    ensures InBounds(s, t) && Inv(DoRef(s, t, n, r))
  {
    hide LastAbout, HolderCount, HandedOnce, Linked;
    assert ThreadInv(s, t) && NodeInv(s, n);
    var s' := DoRef(s, t, n, r);
    HoldersAfter(s.threads, t, s'.threads[t], n);
    HolderBounds(s.threads, n);
    LocalStep(s, s', t, n);
  }

  lemma LoadNextStep(s: State, t: nat, n: nat)
    requires Inv(s) && t < |s.threads| && s.threads[t] == LoadNext(n)
    ensures InBounds(s, t) && Inv(Goto(s, t, Pop(n, s.next[n])))
  {
    hide LastAbout, HolderCount, HandedOnce, Linked;
    assert ThreadInv(s, t) && NodeInv(s, n);
    var s' := Goto(s, t, Pop(n, s.next[n]));
    HoldersAfter(s.threads, t, s'.threads[t], n);
    LocalStep(s, s', t, n);
  }

  /** The compare-and-swap of `try_get`. Success means the node was on the list and its next pointer is still the
      one loaded. */
  lemma PopStep(s: State, t: nat, n: nat, next: Option<nat>)
    requires Inv(s) && t < |s.threads| && s.threads[t] == Pop(n, next)
    ensures InBounds(s, t) && Inv(DoPop(s, t, n, next))
    ensures s.head == Some(n) ==> s.status[n].Listed? && s.refs[n] < SHOULD_BE_ON_FREELIST && next == s.next[n]
  {
    hide LastAbout, HolderCount, HandedOnce;
    assert ThreadInv(s, t) && NodeInv(s, n);
    var s' := DoPop(s, t, n, next);
    HoldersAfter(s.threads, t, s'.threads[t], n);
    HolderBounds(s.threads, n);
    if s.head == Some(n) {
      assert s.stack != [] && s.stack[0] == n;
      assert s.stack == [n] + s.stack[1..];
      assert n in s.stack;
    }
    LocalStep(s, s', t, n);
  }

  lemma LogPush(log: seq<Event>, e: Event)
    requires HandedOnce(log)
    requires e.Handed? ==> LastAbout(log, e.node) == Some(Added(e.node))
    ensures HandedOnce(log + [e])
    ensures LastAbout(log + [e], e.node) == Some(e)
    ensures forall n: nat :: n != e.node ==> LastAbout(log + [e], n) == LastAbout(log, n)
  {
    assert (log + [e])[..|log|] == log;
    forall i | 0 <= i < |log| ensures (log + [e])[..i] == log[..i] {
    }
  }

  lemma UnrefTwiceStep(s: State, t: nat, n: nat)
    requires Inv(s) && t < |s.threads| && s.threads[t] == UnrefTwice(n)
    ensures InBounds(s, t) && Inv(DoUnrefTwice(s, t, n))
  {
    hide LastAbout, HolderCount, HandedOnce, Linked;
    assert ThreadInv(s, t) && NodeInv(s, n);
    var s' := DoUnrefTwice(s, t, n);
    HoldersAfter(s.threads, t, s'.threads[t], n);
    HolderBounds(s.threads, n);
    OnlyTwoEvents(s.log, n);
    LogPush(s.log, Handed(n));
    LocalStep(s, s', t, n);
  }

  lemma {:induction false} OnlyTwoEvents(log: seq<Event>, n: nat)
    ensures LastAbout(log, n) in {None, Some(Handed(n)), Some(Added(n))}
  {
    if log != [] {
      OnlyTwoEvents(log[..|log| - 1], n);
    }
  }

  lemma UnrefStep(s: State, t: nat, n: nat, seen: Option<nat>)
    requires Inv(s) && t < |s.threads| && s.threads[t] == Unref(n, seen)
    ensures InBounds(s, t) && Inv(DoUnref(s, t, n, seen))
  {
    hide LastAbout, HolderCount, HandedOnce, Linked;
    assert ThreadInv(s, t) && NodeInv(s, n);
    var s' := DoUnref(s, t, n, seen);
    HoldersAfter(s.threads, t, s'.threads[t], n);
    HolderBounds(s.threads, n);
    LocalStep(s, s', t, n);
  }

  lemma LoadHeadStep(s: State, t: nat, n: nat, cont: Cont)
    requires Inv(s) && t < |s.threads| && s.threads[t] == LoadHead(n, cont)
    ensures InBounds(s, t) && Inv(Goto(s, t, Link(n, s.head, cont)))
  {
    hide LastAbout, HolderCount, HandedOnce, Linked;
    assert ThreadInv(s, t) && NodeInv(s, n);
    var s' := Goto(s, t, Link(n, s.head, cont));
    HoldersAfter(s.threads, t, s'.threads[t], n);
    LocalStep(s, s', t, n);
  }

  lemma {:induction false} LinkedFrame(
    head: Option<nat>, next: seq<Option<nat>>, stack: seq<nat>, n: nat, v: Option<nat>)
    requires Linked(head, next, stack) && n < |next| && n !in stack
    ensures Linked(head, next[n := v], stack)
    decreases stack
  {
    if stack != [] {
      LinkedFrame(next[stack[0]], next, stack[1..], n, v);
    }
  }

  lemma LinkStep(s: State, t: nat, n: nat, head: Option<nat>, cont: Cont)
    requires Inv(s) && t < |s.threads| && s.threads[t] == Link(n, head, cont)
    ensures InBounds(s, t) && Inv(Goto(s, t, Publish(n, head, cont)).(next := s.next[n := head]))
  {
    hide LastAbout, HolderCount, HandedOnce, Linked;
    assert ThreadInv(s, t) && NodeInv(s, n);
    var s' := Goto(s, t, Publish(n, head, cont)).(next := s.next[n := head]);
    HoldersAfter(s.threads, t, s'.threads[t], n);
    LinkedFrame(s.head, s.next, s.stack, n, head);
    LocalStep(s, s', t, n);
  }

  lemma PublishStep(s: State, t: nat, n: nat, head: Option<nat>, cont: Cont)
    requires Inv(s) && t < |s.threads| && s.threads[t] == Publish(n, head, cont)
    ensures InBounds(s, t) && Inv(DoPublish(s, t, n, head, cont))
  {
    hide LastAbout, HolderCount, HandedOnce, Linked;
    assert ThreadInv(s, t) && NodeInv(s, n);
    var s' := DoPublish(s, t, n, head, cont);
    HoldersAfter(s.threads, t, s'.threads[t], n);
    LocalStep(s, s', t, n);
  }

  lemma PushStep(s: State, t: nat, n: nat, head: Option<nat>, cont: Cont)
    requires Inv(s) && t < |s.threads| && s.threads[t] == Push(n, head, cont)
    ensures InBounds(s, t) && Inv(DoPush(s, t, n, head, cont))
  {
    hide LastAbout, HolderCount, HandedOnce;
    assert ThreadInv(s, t) && NodeInv(s, n);
    var s' := DoPush(s, t, n, head, cont);
    HoldersAfter(s.threads, t, s'.threads[t], n);
    if s.head == head {
      assert s'.stack[1..] == s.stack;
    }
    LocalStep(s, s', t, n);
  }

  lemma RetractStep(s: State, t: nat, n: nat, head: Option<nat>, cont: Cont)
    requires Inv(s) && t < |s.threads| && s.threads[t] == Retract(n, head, cont)
    ensures InBounds(s, t) && Inv(DoRetract(s, t, n, head, cont))
  {
    hide LastAbout, HolderCount, HandedOnce, Linked;
    assert ThreadInv(s, t) && NodeInv(s, n);
    var s' := DoRetract(s, t, n, head, cont);
    HoldersAfter(s.threads, t, s'.threads[t], n);
    HolderBounds(s.threads, n);
    LocalStep(s, s', t, n);
  }

  lemma AddStep(s: State, t: nat, n: nat)
    requires Inv(s) && Enabled(s, Add(t, n))
    ensures Inv(DoAdd(s, t, n))
  {
    hide LastAbout, HolderCount, HandedOnce, Linked;
    assert ThreadInv(s, t) && NodeInv(s, n);
    var s' := DoAdd(s, t, n);
    HoldersAfter(s.threads, t, s'.threads[t], n);
    HolderBounds(s.threads, n);
    LogPush(s.log, Added(n));
    LocalStep(s, s', t, n);
  }

  lemma NextKeepsInv(s: State, step: Step)
    requires Inv(s)
    ensures Inv(Next(s, step))
  {
    if Enabled(s, step) {
      assert ThreadInv(s, step.t);
      hide Inv, ThreadInv;
      match step
      case Get(t) => GetStep(s, t);
      case Add(t, n) => AddStep(s, t, n);
      case Advance(t) =>
        match s.threads[t]
        case Reload => GetStep(s, t);
        case LoadRefs(_) => LoadRefsStep(s, t);
        case Ref(n, r) => RefStep(s, t, n, r);
        case LoadNext(n) => LoadNextStep(s, t, n);
        case Pop(n, next) => PopStep(s, t, n, next);
        case UnrefTwice(n) => UnrefTwiceStep(s, t, n);
        case Unref(n, seen) => UnrefStep(s, t, n, seen);
        case LoadHead(n, cont) => LoadHeadStep(s, t, n, cont);
        case Link(n, head, cont) => LinkStep(s, t, n, head, cont);
        case Publish(n, head, cont) => PublishStep(s, t, n, head, cont);
        case Push(n, head, cont) => PushStep(s, t, n, head, cont);
        case Retract(n, head, cont) => RetractStep(s, t, n, head, cont);
    }
  }

  lemma GetStep(s: State, t: nat)
    requires Inv(s) && t < |s.threads| && (s.threads[t].Idle? || s.threads[t].Reload?)
    ensures Inv(Goto(s, t, LoadRefs(s.head)))
  {
    QuietStep(s, t, LoadRefs(s.head));
  }

  lemma LoadRefsStep(s: State, t: nat)
    requires Inv(s) && Enabled(s, Advance(t)) && s.threads[t].LoadRefs?
    ensures Inv(Apply(s, Advance(t)))
  {
    hide Inv;
    var seen := s.threads[t].seen;
    if seen.None? {
      QuietStep(s, t, Idle);
    } else if s.refs[seen.value] % REFS == 0 {
      QuietStep(s, t, Reload);
    } else {
      QuietStep(s, t, Ref(seen.value, s.refs[seen.value]));
    }
  }

  // Every run, with any numbers of nodes and threads

  lemma {:induction false} InvInEveryRun(nodes: nat, threads: nat, steps: seq<Step>)
    requires threads < REFS - 2
    ensures Inv(Exec(Init(nodes, threads), steps))
  {
    if steps == [] {
      var s := Init(nodes, threads);
      forall n: nat | n < nodes ensures NodeInv(s, n) {
        SumZero(s.threads, HoldWeight(n));
      }
    } else {
      InvInEveryRun(nodes, threads, steps[..|steps| - 1]);
      NextKeepsInv(Exec(Init(nodes, threads), steps[..|steps| - 1]), steps[|steps| - 1]);
    }
  }

  /** No node is handed to two takers without an add between: in every run, the last event about a node before
      each hand-out of it is an add. */
  lemma NoDoubleHandOut(nodes: nat, threads: nat, steps: seq<Step>)
    requires threads < REFS - 2
    ensures HandedOnce(Exec(Init(nodes, threads), steps).log)
  {
    InvInEveryRun(nodes, threads, steps);
  }

  /** In every run the list is a chain that contains each node at most once, a node off the list is out, in one
      thread's hands or pending, and no thread is ever stuck on a bad pointer. */
  lemma ListIsSound(nodes: nat, threads: nat, steps: seq<Step>)
    requires threads < REFS - 2
    ensures var s := Exec(Init(nodes, threads), steps);
            && |s.status| == |s.refs| && Linked(s.head, s.next, s.stack) && NoDuplicates(s.stack)
            && (forall t: nat :: t < |s.threads| ==> InBounds(s, t))
            && (forall n: nat :: n < |s.refs| ==> (n in s.stack <==> s.status[n].Listed?) && DutyHeld(s, n))
  {
    InvInEveryRun(nodes, threads, steps);
    var s := Exec(Init(nodes, threads), steps);
    forall t: nat | t < |s.threads| ensures InBounds(s, t) {
      assert ThreadInv(s, t);
    }
    forall n: nat | n < |s.refs| ensures (n in s.stack <==> s.status[n].Listed?) && DutyHeld(s, n) {
      assert NodeInv(s, n);
    }
  }

  /** The assertion of `try_get`, when it is evaluated: a thread that has taken a node off the list finds the
      SHOULD_BE_ON_FREELIST bit clear for as long as it has not lowered the count. */
  lemma TakenNodeUnflagged(nodes: nat, threads: nat, steps: seq<Step>, t: nat)
    requires threads < REFS - 2
    requires t < |Exec(Init(nodes, threads), steps).threads| && Exec(Init(nodes, threads), steps).threads[t].UnrefTwice?
    ensures var s := Exec(Init(nodes, threads), steps);
            var n := s.threads[t].node;
            n < |s.refs| && 2 <= s.refs[n] < SHOULD_BE_ON_FREELIST && n !in s.stack
  {
    InvInEveryRun(nodes, threads, steps);
    var s := Exec(Init(nodes, threads), steps);
    assert ThreadInv(s, t);
    assert NodeInv(s, s.threads[t].node);
    HolderBounds(s.threads, s.threads[t].node);
  }

  /** A thread is obliged to put node n back: it holds a reference, or it is adding the node. */
  predicate Obliged(pc: PC, n: nat) {
    Holds(pc, n) || ((pc.LoadHead? || pc.Link? || pc.Publish?) && pc.node == n)
  }

  /** A node whose SHOULD_BE_ON_FREELIST bit is set is never forgotten: some thread will put it back. */
  lemma FlaggedNodeHasKeeper(nodes: nat, threads: nat, steps: seq<Step>, n: nat)
    requires threads < REFS - 2
    requires n < |Exec(Init(nodes, threads), steps).refs|
    requires SHOULD_BE_ON_FREELIST <= Exec(Init(nodes, threads), steps).refs[n]
    ensures var s := Exec(Init(nodes, threads), steps);
            exists t :: 0 <= t < |s.threads| && Obliged(s.threads[t], n)
  {
    InvInEveryRun(nodes, threads, steps);
    var s := Exec(Init(nodes, threads), steps);
    assert NodeInv(s, n);
    HolderBounds(s.threads, n);
    if s.status[n].Adding? {
      assert Obliged(s.threads[s.status[n].who], n);
    } else {
      var t :| 0 <= t < |s.threads| && Holds(s.threads[t], n);
      assert Obliged(s.threads[t], n);
    }
  }

  /** While any thread holds a reference to a node, no step changes the node's next pointer. */
  lemma NextStableWhileHeld(s: State, step: Step, t: nat, n: nat)
    requires Inv(s) && t < |s.threads| && Holds(s.threads[t], n)
    ensures n < |s.next| == |Next(s, step).next| && Next(s, step).next[n] == s.next[n]
  {
    assert ThreadInv(s, t) && NodeInv(s, n);
    if Enabled(s, step) && step.Advance? && s.threads[step.t].Link? {
      assert ThreadInv(s, step.t);
      HolderBounds(s.threads, n);
    }
  }

  // What operations answer

  /** `try_get` gives up only when the head it loaded last is null: when it is about to load a count it holds that head,
      and it goes on unless the head is null. */
  lemma GivesUpOnNull(s: State, t: nat)
    requires Enabled(s, Advance(t)) && s.threads[t].LoadRefs?
    ensures Next(s, Advance(t)).threads[t] == Idle <==> s.threads[t].seen == None
    ensures s.threads[t].seen.Some? && s.refs[s.threads[t].seen.value] % REFS != 0 ==>
              Next(s, Advance(t)).threads[t].Ref?
    ensures s.threads[t].seen.Some? && s.refs[s.threads[t].seen.value] % REFS == 0 ==>
              Next(Next(s, Advance(t)), Advance(t)).threads[t] == LoadRefs(s.head)
  {
  }

  /** A swap that fails is tried again from the head it found: a lost reference count goes back to loading the head, a
      lost head first gives its reference up. */
  lemma FailedSwapRetries(s: State, t: nat)
    requires Enabled(s, Advance(t))
    ensures var pc := s.threads[t];
            && (pc.Ref? && s.refs[pc.node] != pc.refs ==> Next(s, Advance(t)) == Goto(s, t, Reload))
            && (pc.Reload? ==> Next(s, Advance(t)) == Goto(s, t, LoadRefs(s.head)))
            && (pc.Pop? && s.head != Some(pc.node) ==> Next(s, Advance(t)) == Goto(s, t, Unref(pc.node, s.head)))
            && (pc.Unref? && s.refs[pc.node] != SHOULD_BE_ON_FREELIST + 1 ==>
                  Next(s, Advance(t)).threads[t] == LoadRefs(pc.seen))
            && (pc.Push? && s.head != pc.head ==> Next(s, Advance(t)) == Goto(s, t, Retract(pc.node, s.head, pc.cont)))
  {
  }

  predicate Quiet(s: State) {
    forall u :: 0 <= u < |s.threads| ==> s.threads[u].Idle?
  }

  /** The thread's next n accesses with nothing in between. */
  function Advances(s: State, t: nat, n: nat): State {
    if n == 0 then s else Next(Advances(s, t, n - 1), Advance(t))
  }

  lemma OneMore(s: State, t: nat, n: nat)
    requires n > 0
    ensures Advances(s, t, n) == Next(Advances(s, t, n - 1), Advance(t)) && Advances(s, t, 0) == s
  {
  }

  /** When no operation is running, a node's count is what its status says. */
  lemma QuietCounts(s: State, n: nat)
    requires Inv(s) && Quiet(s) && n < |s.refs|
    ensures s.status[n].Listed? ==> s.refs[n] == 1
    ensures s.status[n].Out? ==> s.refs[n] == 0
    ensures s.status[n].Listed? || s.status[n].Out?
  {
    assert NodeInv(s, n);
    SumZero(s.threads, HoldWeight(n));
  }

  /** `try_get` up to the swap. */
  lemma GetToSwap(s: State, t: nat, n: nat)
    requires InBounds(s, t) && s.threads[t].Idle? && s.head == Some(n) && n < |s.refs| && s.refs[n] == 1
    ensures var s' := Advances(Next(s, Get(t)), t, 3);
            s' == Goto(s, t, Pop(n, s.next[n])).(refs := s.refs[n := 2])
  {
    var s0 := Next(s, Get(t));
    OneMore(s0, t, 1);
    OneMore(s0, t, 2);
    OneMore(s0, t, 3);
    hide Advances;
    assert s0 == Goto(s, t, LoadRefs(Some(n)));
    assert Advances(s0, t, 1) == Goto(s, t, Ref(n, 1));
    assert Advances(s0, t, 2) == Goto(s, t, LoadNext(n)).(refs := s.refs[n := 2]);
  }

  lemma SwapToEnd(s: State, t: nat, n: nat)
    requires InBounds(s, t) && n < |s.refs| && s.refs[n] == 2 && s.head == Some(n) && s.stack != []
    requires s.threads[t] == Pop(n, s.next[n])
    ensures var s' := Next(Next(s, Advance(t)), Advance(t));
            && s'.threads == s.threads[t := Idle] && s'.stack == s.stack[1..] && s'.head == s.next[n]
            && s'.refs == s.refs[n := 0] && s'.status == s.status[n := Out] && s'.log == s.log + [Handed(n)]
  {
    var s1 := Next(s, Advance(t));
    assert s1 == Goto(s, t, UnrefTwice(n)).(
                   head := s.next[n], status := s.status[n := Taken(t)], stack := s.stack[1..]);
  }

  /** `try_get` answers: when no other operation is running it hands out the first node of the list, which is then off
      the list and out, and it returns null exactly when the list is empty. */
  lemma GetFrom(s: State, t: nat)
    requires Inv(s) && Quiet(s) && t < |s.threads|
    ensures s.stack == [] ==> Advances(Next(s, Get(t)), t, 1) == s
    ensures s.stack != [] ==>
              var s' := Advances(Next(s, Get(t)), t, 5);
              && s'.log == s.log + [Handed(s.stack[0])] && s'.stack == s.stack[1..] && Quiet(s')
  {
    assert ThreadInv(s, t);
    if s.stack == [] {
      OneMore(Next(s, Get(t)), t, 1);
      assert s.threads[t := Idle] == s.threads;
      return;
    }
    var n := s.stack[0];
    assert n in s.stack && n < |s.refs|;
    assert NodeInv(s, n);
    QuietCounts(s, n);
    var s0 := Next(s, Get(t));
    GetToSwap(s, t, n);
    SwapToEnd(Advances(s0, t, 3), t, n);
    OneMore(s0, t, 4);
    OneMore(s0, t, 5);
    hide Inv, Advances, Next;
  }

  /** `add` answers: when no other operation is running it puts an owned node at the head of the list. */
  lemma AddFrom(s: State, t: nat, n: nat)
    requires Inv(s) && Quiet(s) && t < |s.threads| && n < |s.refs| && s.status[n].Out?
    ensures var s' := Advances(Next(s, Add(t, n)), t, 4);
            s'.stack == [n] + s.stack && s'.head == Some(n) && s'.log == s.log + [Added(n)] && Quiet(s') && Inv(s')
  {
    assert ThreadInv(s, t);
    QuietCounts(s, n);
    AddSteps(s, t, n);
    NextKeepsInv(s, Add(t, n));
    AdvancesKeepInv(Next(s, Add(t, n)), t, 4);
    hide Inv, Advances, Next;
  }

  lemma AddSteps(s: State, t: nat, n: nat)
    requires InBounds(s, t) && s.threads[t].Idle? && n < |s.refs| && s.status[n].Out? && s.refs[n] == 0
    ensures var s' := Advances(Next(s, Add(t, n)), t, 4);
            && s'.stack == [n] + s.stack && s'.head == Some(n) && s'.log == s.log + [Added(n)]
            && s'.threads == s.threads[t := Idle]
  {
    var s0 := Next(s, Add(t, n));
    OneMore(s0, t, 1);
    OneMore(s0, t, 2);
    OneMore(s0, t, 3);
    OneMore(s0, t, 4);
    hide Advances;
    assert s0 == Goto(s, t, LoadHead(n, Return)).(refs := s0.refs, status := s0.status, log := s.log + [Added(n)]);
    var s2 := Advances(s0, t, 2);
    assert Advances(s0, t, 1) == Goto(s0, t, Link(n, s.head, Return));
    assert s2 == Goto(s0, t, Publish(n, s.head, Return)).(next := s.next[n := s.head]);
    PublishAndPush(s2, t, n);
  }

  lemma PublishAndPush(s: State, t: nat, n: nat)
    requires InBounds(s, t) && n < |s.refs| && s.threads[t] == Publish(n, s.head, Return)
    ensures var s' := Next(Next(s, Advance(t)), Advance(t));
            && s'.stack == [n] + s.stack && s'.head == Some(n) && s'.log == s.log
            && s'.threads == s.threads[t := Idle]
  {
    assert Next(s, Advance(t)) == DoPublish(s, t, n, s.head, Return);
  }

  lemma {:induction false} AdvancesKeepInv(s: State, t: nat, n: nat)
    requires Inv(s)
    ensures Inv(Advances(s, t, n))
  {
    hide Inv, Next;
    if n > 0 {
      AdvancesKeepInv(s, t, n - 1);
      NextKeepsInv(Advances(s, t, n - 1), Advance(t));
    }
  }

  /** In every run: from a state in which no operation is running, `try_get` by any thread answers as above, and an
      added node is the one the next `try_get` hands out. */
  lemma LastInFirstOut(nodes: nat, threads: nat, steps: seq<Step>, t: nat, u: nat, n: nat)
    requires threads < REFS - 2
    requires var s := Exec(Init(nodes, threads), steps);
             Quiet(s) && t < |s.threads| && u < |s.threads| && n < |s.refs| && n < |s.status| && s.status[n].Out?
    ensures var s := Exec(Init(nodes, threads), steps);
            var added := Advances(Next(s, Add(t, n)), t, 4);
            var taken := Advances(Next(added, Get(u)), u, 5);
            && added.stack == [n] + s.stack && taken.stack == s.stack && Quiet(taken)
            && taken.log == s.log + [Added(n), Handed(n)]
  {
    InvInEveryRun(nodes, threads, steps);
    var s := Exec(Init(nodes, threads), steps);
    AddFrom(s, t, n);
    var added := Advances(Next(s, Add(t, n)), t, 4);
    ThreadsKept(Next(s, Add(t, n)), t, 4);
    AddKeepsThreads(s, t, n);
    GetFrom(added, u);
    hide Exec, Inv, Advances, Next;
  }

  lemma AddKeepsThreads(s: State, t: nat, n: nat)
    ensures |Next(s, Add(t, n)).threads| == |s.threads|
  {
  }

  lemma {:induction false} ThreadsKept(s: State, t: nat, n: nat)
    ensures |Advances(s, t, n).threads| == |s.threads|
  {
    if n > 0 {
      ThreadsKept(s, t, n - 1);
    }
  }
}
