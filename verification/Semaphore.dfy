/** The lightweight semaphore (lightweightsemaphore.h): any number of threads waiting, timing out, bulk waiting
    and signalling, one atomic access per step. The operating-system semaphore is a counter of permits. */
module Semaphores {
  import opened Sums

  /** Program counters, named by the access about to be made. `max` is the number of permits still wanted;
      `tryWait` and `wait` are the bulk operations with max = 1. */
  datatype PC =
    | Idle
    | TryLoad(max: nat, blocking: bool)
    | TryCas(max: nat, blocking: bool, seen: nat)
    | Spin(max: nat)
    | SpinCas(max: nat, seen: nat)
    | Sleep(max: nat)
    | AdjustLoad(max: nat)
    | Adjust(max: nat, count: int)
    | Post(toRelease: nat)

  /** `signalled` and `acquired` are totals, `wanted` and `got` what each thread asked for and received in its present
      or last wait: kept for the statements; no step reads them. */
  datatype State = State(
    count: int,
    permits: nat,
    threads: seq<PC>,
    initial: nat,
    signalled: nat,
    acquired: nat,
    wanted: seq<nat>,
    got: seq<nat>)

  /** `lucky` resolves what the code leaves open: a weak compare-and-swap may fail for no reason, the spin loop
      may end, a sleep may time out or be interrupted. */
  datatype Step =
    | Try(t: nat, max: nat)
    | Wait(t: nat, max: nat)
    | Signal(t: nat, n: nat)
    | Advance(t: nat, lucky: bool)

  function Init(initial: nat, threads: nat): State {
    State(initial, 0, seq(threads, _ => Idle), initial, 0, 0, seq(threads, _ => 0), seq(threads, _ => 0))
  }

  predicate Enabled(s: State, step: Step) {
    && step.t < |s.threads| == |s.wanted| == |s.got|
    && match step
       case Try(t, _) => s.threads[t].Idle?
       case Wait(t, _) => s.threads[t].Idle?
       case Signal(t, _) => s.threads[t].Idle?
       case Advance(t, lucky) =>
         // a sleeper wakes with a permit only when there is one
         !s.threads[t].Idle? && (s.threads[t].Sleep? && lucky ==> 0 < s.permits)
  }

  function Goto(s: State, t: nat, pc: PC): State
    requires t < |s.threads|
  {
    s.(threads := s.threads[t := pc])
  }

  function Min(a: int, b: int): int {
    if a < b then a else b
  }

  function Pos(a: int): int {
    if a > 0 then a else 0
  }

  /** After one permit was obtained the hard way, `waitMany` tries for the rest without blocking. */
  function Rest(max: nat): PC {
    if max > 1 then TryLoad(max - 1, false) else Idle
  }

  function Asked(s: State, t: nat, max: nat): State
    requires t < |s.wanted| == |s.got|
  {
    s.(wanted := s.wanted[t := max], got := s.got[t := 0])
  }

  /** The thread's wait has yielded n. */
  function Gained(s: State, t: nat, n: nat): State
    requires t < |s.got|
  {
    s.(acquired := s.acquired + n, got := s.got[t := s.got[t] + n])
  }

  /** A compare-and-swap from the count seen takes up to max of it. */
  function Grab(s: State, t: nat, max: nat, seen: nat, retry: PC, lucky: bool): State
    requires t < |s.threads| == |s.got|
  {
    if s.count == seen && lucky
    then Gained(Goto(s, t, Idle), t, Min(seen, max)).(count := seen - Min(seen, max))
    else Goto(s, t, retry)
  }

  function Subtract(s: State, t: nat, max: nat): State
    requires t < |s.threads| == |s.got|
  {
    if s.count > 0
    then Gained(Goto(s, t, Rest(max)), t, 1).(count := s.count - 1)
    else Goto(s, t, Sleep(max)).(count := s.count - 1)
  }

  function TakePermit(s: State, t: nat, max: nat): State
    requires t < |s.threads| == |s.got| && 0 < s.permits
  {
    Gained(Goto(s, t, Rest(max)), t, 1).(permits := s.permits - 1)
  }

  function DoAdjust(s: State, t: nat, max: nat, seen: int): State
    requires t < |s.threads| == |s.got|
  {
    if seen >= 0 then
      if 0 < s.permits then TakePermit(s, t, max) else Goto(s, t, AdjustLoad(max))
    else if s.count == seen then Goto(s, t, Idle).(count := seen + 1)
    else Goto(s, t, AdjustLoad(max))
  }

  function DoSignal(s: State, t: nat, n: nat): State
    requires t < |s.threads|
  {
    var toRelease := Min(-s.count, n);
    Goto(s, t, if toRelease > 0 then Post(toRelease) else Idle).(count := s.count + n, signalled := s.signalled + n)
  }

  function Apply(s: State, step: Step): State
    requires Enabled(s, step)
  {
    match step
    case Try(t, max) => Goto(Asked(s, t, max), t, TryLoad(max, false))
    case Wait(t, max) => Goto(Asked(s, t, max), t, TryLoad(max, true))
    case Signal(t, n) => DoSignal(s, t, n)
    case Advance(t, lucky) =>
      match s.threads[t]
      case TryLoad(max, blocking) =>
        if s.count > 0 then Goto(s, t, TryCas(max, blocking, s.count))
        else if blocking && max > 0 then Goto(s, t, Spin(max))
        else Goto(s, t, Idle)
      case TryCas(max, blocking, seen) => Grab(s, t, max, seen, TryLoad(max, blocking), lucky)
      case Spin(max) =>
        if !lucky then Subtract(s, t, max)
        else if s.count > 0 then Goto(s, t, SpinCas(max, s.count)) else s
      case SpinCas(max, seen) => Grab(s, t, max, seen, Spin(max), true)
      case Sleep(max) => if lucky then TakePermit(s, t, max) else Goto(s, t, AdjustLoad(max))
      case AdjustLoad(max) => Goto(s, t, Adjust(max, s.count))
      case Adjust(max, seen) => DoAdjust(s, t, max, seen)
      case Post(n) => Goto(s, t, Idle).(permits := s.permits + n)
  }

  function Next(s: State, step: Step): State {
    if Enabled(s, step) then Apply(s, step) else s
  }

  function Exec(s: State, steps: seq<Step>): State {
    if steps == [] then s else Next(Exec(s, steps[..|steps| - 1]), steps[|steps| - 1])
  }

  /** The thread has lowered the count below zero on its own behalf and not been served or given up. */
  predicate Blocked(pc: PC) {
    pc.Sleep? || pc.AdjustLoad? || pc.Adjust?
  }

  function BlockedWeight(): PC -> int {
    (pc: PC) => if Blocked(pc) then 1 else 0
  }

  function PostWeight(): PC -> int {
    (pc: PC) => if pc.Post? then pc.toRelease else 0
  }

  function BlockedCount(threads: seq<PC>): int {
    Sum(threads, BlockedWeight())
  }

  /** Releases that a signaller has decided on and not yet posted. */
  function Unposted(threads: seq<PC>): int {
    Sum(threads, PostWeight())
  }

  ghost predicate Inv(s: State) {
    && BlockedCount(s.threads) == s.permits + Unposted(s.threads) + Pos(-s.count)
    && s.acquired == s.initial + s.signalled - Pos(s.count) - s.permits - Unposted(s.threads)
  }

  lemma ThreadsUpdate(threads: seq<PC>, t: nat, pc: PC)
    requires t < |threads|
    ensures BlockedCount(threads[t := pc])
         == BlockedCount(threads) - (if Blocked(threads[t]) then 1 else 0) + (if Blocked(pc) then 1 else 0)
    ensures Unposted(threads[t := pc]) == Unposted(threads)
         - (if threads[t].Post? then threads[t].toRelease else 0) + (if pc.Post? then pc.toRelease else 0)
  {
    SumUpdate(threads, t, pc, BlockedWeight());
    SumUpdate(threads, t, pc, PostWeight());
  }

  lemma CountsNonNegative(threads: seq<PC>)
    ensures 0 <= BlockedCount(threads) && 0 <= Unposted(threads)
    ensures forall t :: 0 <= t < |threads| && Blocked(threads[t]) ==> 1 <= BlockedCount(threads)
  {
    SumNonNegative(threads, BlockedWeight());
    SumNonNegative(threads, PostWeight());
    forall t | 0 <= t < |threads| && Blocked(threads[t]) ensures 1 <= BlockedCount(threads) {
      SumAtLeast(threads, t, BlockedWeight());
    }
  }

  /** A step of thread t keeps the accounts when its own changes balance. */
  ghost predicate Balanced(s: State, s': State, t: nat)
    requires t < |s.threads| == |s'.threads|
  {
    var pc, pc' := s.threads[t], s'.threads[t];
    && s'.threads == s.threads[t := pc'] && s'.initial == s.initial
    && BlockedWeight()(pc') - BlockedWeight()(pc)
       == s'.permits - s.permits + PostWeight()(pc') - PostWeight()(pc) + Pos(-s'.count) - Pos(-s.count)
    && s'.acquired - s.acquired
       == s'.signalled - s.signalled - (Pos(s'.count) - Pos(s.count)) - (s'.permits - s.permits)
          - (PostWeight()(pc') - PostWeight()(pc))
  }

  lemma GotoBalances(s: State, t: nat, pc: PC)
    requires t < |s.threads| && Blocked(pc) == Blocked(s.threads[t]) && !pc.Post? && !s.threads[t].Post?
    ensures Balanced(s, Goto(s, t, pc), t)
  {
  }

  lemma TakingBalances(s: State, t: nat, max: nat, seen: nat, retry: PC, lucky: bool)
    requires t < |s.threads| == |s.got|
    requires !Blocked(s.threads[t]) && !s.threads[t].Post? && !Blocked(retry) && !retry.Post?
    ensures |Grab(s, t, max, seen, retry, lucky).threads| == |Subtract(s, t, max).threads| == |s.threads|
    ensures Balanced(s, Grab(s, t, max, seen, retry, lucky), t)
    ensures Balanced(s, Subtract(s, t, max), t)
  {
  }

  lemma BlockedBalances(s: State, t: nat, max: nat, seen: int)
    requires t < |s.threads| == |s.got| && Blocked(s.threads[t])
    ensures 0 < s.permits ==> |TakePermit(s, t, max).threads| == |s.threads| && Balanced(s, TakePermit(s, t, max), t)
    ensures |DoAdjust(s, t, max, seen).threads| == |s.threads| && Balanced(s, DoAdjust(s, t, max, seen), t)
  {
  }

  lemma SignalBalances(s: State, t: nat, n: nat)
    requires t < |s.threads| && s.threads[t].Idle?
    ensures |DoSignal(s, t, n).threads| == |s.threads| && Balanced(s, DoSignal(s, t, n), t)
  {
  }

  lemma StepsBalance(s: State, step: Step)
    requires Enabled(s, step)
    ensures |Apply(s, step).threads| == |s.threads| && Balanced(s, Apply(s, step), step.t)
  {
    hide Balanced, Grab, Subtract, TakePermit, DoAdjust, DoSignal;
    match step
    case Try(t, max) => AskedBalances(s, t, max, false);
    case Wait(t, max) => AskedBalances(s, t, max, true);
    case Signal(t, n) => SignalBalances(s, t, n);
    case Advance(t, lucky) =>
      match s.threads[t]
      case TryLoad(max, blocking) => GotoBalances(s, t, Apply(s, step).threads[t]);
      case TryCas(max, blocking, seen) => TakingBalances(s, t, max, seen, TryLoad(max, blocking), lucky);
      case Spin(max) =>
        GotoBalances(s, t, Spin(max));
        assert Goto(s, t, Spin(max)) == s;
        if lucky && 0 < s.count {
          GotoBalances(s, t, SpinCas(max, s.count));
        }
        TakingBalances(s, t, max, 0, Spin(max), true);
      case SpinCas(max, seen) => TakingBalances(s, t, max, seen, Spin(max), true);
      case Sleep(max) =>
        GotoBalances(s, t, AdjustLoad(max));
        BlockedBalances(s, t, max, 0);
      case AdjustLoad(max) => GotoBalances(s, t, Adjust(max, s.count));
      case Adjust(max, seen) => BlockedBalances(s, t, max, seen);
      case Post(n) => PostBalances(s, t, n);
  }

  lemma AskedBalances(s: State, t: nat, max: nat, blocking: bool)
    requires t < |s.threads| == |s.wanted| == |s.got| && s.threads[t].Idle?
    ensures Balanced(s, Goto(Asked(s, t, max), t, TryLoad(max, blocking)), t)
  {
  }

  lemma PostBalances(s: State, t: nat, n: nat)
    requires t < |s.threads| && s.threads[t] == Post(n)
    ensures Balanced(s, Goto(s, t, Idle).(permits := s.permits + n), t)
  {
  }

  lemma NextKeepsInv(s: State, step: Step)
    requires Inv(s)
    ensures Inv(Next(s, step))
    ensures |Next(s, step).threads| == |s.threads| && Next(s, step).initial == s.initial
  {
    hide BlockedCount, Unposted, Apply;
    if Enabled(s, step) {
      var s' := Apply(s, step);
      StepsBalance(s, step);
      ThreadsUpdate(s.threads, step.t, s'.threads[step.t]);
    }
  }

  /** Accounting in every run of waits, timed waits, bulk waits and signals: blocked waiters are exactly covered
      by permits, releases on their way and the negative part of the count, and what has been acquired is what
      was given minus what is still available. */
  lemma {:induction false} AccountingInEveryRun(initial: nat, threads: nat, steps: seq<Step>)
    ensures Inv(Exec(Init(initial, threads), steps))
    ensures Exec(Init(initial, threads), steps).initial == initial
    ensures |Exec(Init(initial, threads), steps).threads| == threads
  {
    if steps == [] {
      var s := Init(initial, threads);
      SumZero(s.threads, BlockedWeight());
      SumZero(s.threads, PostWeight());
    } else {
      hide Next, Inv;
      AccountingInEveryRun(initial, threads, steps[..|steps| - 1]);
      NextKeepsInv(Exec(Init(initial, threads), steps[..|steps| - 1]), steps[|steps| - 1]);
    }
  }

  /** Nothing is over-acquired. */
  lemma NeverOverAcquired(initial: nat, threads: nat, steps: seq<Step>)
    ensures var s := Exec(Init(initial, threads), steps);
            s.acquired <= initial + s.signalled
  {
    AccountingInEveryRun(initial, threads, steps);
    CountsNonNegative(Exec(Init(initial, threads), steps).threads);
  }

  /** A waiter that gave up sleeping and finds the count not negative has a permit waiting or on its way, so the
      adjusting loop cannot spin for nothing. */
  lemma TimedOutWaiterHasPermit(initial: nat, threads: nat, steps: seq<Step>, t: nat)
    requires t < |Exec(Init(initial, threads), steps).threads|
    requires Blocked(Exec(Init(initial, threads), steps).threads[t])
    requires 0 <= Exec(Init(initial, threads), steps).count
    ensures var s := Exec(Init(initial, threads), steps);
            1 <= s.permits + Unposted(s.threads) && s.permits + Unposted(s.threads) == BlockedCount(s.threads)
  {
    AccountingInEveryRun(initial, threads, steps);
    CountsNonNegative(Exec(Init(initial, threads), steps).threads);
  }

  // No wait yields more than it asked for

  /** What the thread may still take. */
  function Left(pc: PC): nat {
    if pc.Idle? || pc.Post? then 0 else pc.max
  }

  /** The thread is past the test that it wants something. */
  predicate Insists(pc: PC) {
    pc.Spin? || pc.SpinCas? || Blocked(pc)
  }

  predicate ShareInv(s: State, t: nat)
    requires t < |s.threads| == |s.wanted| == |s.got|
  {
    s.got[t] + Left(s.threads[t]) <= s.wanted[t] && (Insists(s.threads[t]) ==> 0 < s.threads[t].max)
  }

  ghost predicate SharesInv(s: State) {
    |s.threads| == |s.wanted| == |s.got| && forall t: nat :: t < |s.threads| ==> ShareInv(s, t)
  }

  lemma NextKeepsShares(s: State, step: Step)
    requires SharesInv(s)
    ensures SharesInv(Next(s, step))
  {
    if Enabled(s, step) {
      var s' := Apply(s, step);
      ShareStep(s, step);
      hide Apply;
      forall t: nat | t < |s'.threads| ensures ShareInv(s', t) {
        assert ShareInv(s, t);
      }
    }
  }

  /** A step concerns the share of the thread that makes it, and keeps it. */
  predicate ShareKept(s: State, s': State, t: nat) {
    && |s'.threads| == |s'.wanted| == |s'.got| == |s.threads| == |s.wanted| == |s.got| && t < |s.threads|
    && ShareInv(s', t) && s'.threads == s.threads[t := s'.threads[t]]
    && s'.wanted == s.wanted[t := s'.wanted[t]] && s'.got == s.got[t := s'.got[t]]
  }

  predicate Sharing(s: State, t: nat) {
    t < |s.threads| == |s.wanted| == |s.got| && ShareInv(s, t)
  }

  lemma GotoShares(s: State, t: nat, pc: PC)
    requires Sharing(s, t) && Left(pc) <= Left(s.threads[t]) && (Insists(pc) ==> 0 < pc.max)
    ensures ShareKept(s, Goto(s, t, pc), t)
  {
  }

  lemma GainShares(s: State, t: nat, max: nat, seen: nat, retry: PC, lucky: bool)
    requires Sharing(s, t) && Left(s.threads[t]) == max
    requires Left(retry) <= max && (Insists(retry) ==> 0 < retry.max)
    ensures ShareKept(s, Grab(s, t, max, seen, retry, lucky), t)
    ensures max > 0 ==> ShareKept(s, Subtract(s, t, max), t)
    ensures max > 0 && s.permits > 0 ==> ShareKept(s, TakePermit(s, t, max), t)
  {
  }

  lemma AdjustShares(s: State, t: nat, max: nat, seen: int)
    requires Sharing(s, t) && s.threads[t] == Adjust(max, seen)
    ensures ShareKept(s, DoAdjust(s, t, max, seen), t)
  {
    GainShares(s, t, max, 0, Idle, true);
    GotoShares(s, t, Idle);
    hide ShareKept, TakePermit, Grab, Subtract;
    GotoShares(s, t, AdjustLoad(max));
    CountShares(s, Goto(s, t, Idle), t, seen + 1);
  }

  lemma CountShares(s: State, s': State, t: nat, count: int)
    requires ShareKept(s, s', t)
    ensures ShareKept(s, s'.(count := count), t)
  {
  }

  lemma AskShares(s: State, t: nat, n: nat, blocking: bool)
    requires Sharing(s, t) && s.threads[t].Idle?
    ensures ShareKept(s, Goto(Asked(s, t, n), t, TryLoad(n, blocking)), t) && ShareKept(s, DoSignal(s, t, n), t)
  {
  }

  lemma ShareStep(s: State, step: Step)
    requires Enabled(s, step) && ShareInv(s, step.t)
    ensures ShareKept(s, Apply(s, step), step.t)
  {
    hide ShareKept, Grab, Subtract, TakePermit, DoAdjust, DoSignal;
    match step
    case Try(t, max) => AskShares(s, t, max, false);
    case Wait(t, max) => AskShares(s, t, max, true);
    case Signal(t, n) => AskShares(s, t, n, true);
    case Advance(t, lucky) =>
      match s.threads[t]
      case TryLoad(max, blocking) => GotoShares(s, t, Apply(s, step).threads[t]);
      case TryCas(max, blocking, seen) => GainShares(s, t, max, seen, TryLoad(max, blocking), lucky);
      case Spin(max) =>
        GotoShares(s, t, Spin(max));
        assert Goto(s, t, Spin(max)) == s;
        if lucky && 0 < s.count {
          GotoShares(s, t, SpinCas(max, s.count));
        }
        GainShares(s, t, max, 0, Spin(max), true);
      case SpinCas(max, seen) => GainShares(s, t, max, seen, Spin(max), true);
      case Sleep(max) =>
        GotoShares(s, t, AdjustLoad(max));
        GainShares(s, t, max, 0, Idle, true);
      case AdjustLoad(max) => GotoShares(s, t, Adjust(max, s.count));
      case Adjust(max, seen) => AdjustShares(s, t, max, seen);
      case Post(n) => PostShares(s, t, n);
  }

  lemma PostShares(s: State, t: nat, n: nat)
    requires Sharing(s, t) && s.threads[t] == Post(n)
    ensures ShareKept(s, Goto(s, t, Idle).(permits := s.permits + n), t)
  {
  }

  lemma {:induction false} SharesInEveryRun(initial: nat, threads: nat, steps: seq<Step>)
    ensures SharesInv(Exec(Init(initial, threads), steps))
  {
    if steps != [] {
      hide Next;
      SharesInEveryRun(initial, threads, steps[..|steps| - 1]);
      NextKeepsShares(Exec(Init(initial, threads), steps[..|steps| - 1]), steps[|steps| - 1]);
    }
  }

  /** In every run no wait, bulk or single, has yielded more than it asked for. */
  lemma NeverMoreThanAsked(initial: nat, threads: nat, steps: seq<Step>, t: nat)
    requires t < |Exec(Init(initial, threads), steps).threads|
    ensures var s := Exec(Init(initial, threads), steps); t < |s.got| == |s.wanted| && s.got[t] <= s.wanted[t]
  {
    SharesInEveryRun(initial, threads, steps);
    assert ShareInv(Exec(Init(initial, threads), steps), t);
  }

  // What operations answer when nobody interferes

  /** A wait that does not block, and any wait while there is something to take, takes as much as there is, up to what
      it asks for, and is done; with nothing there, the one that does not block is done with nothing, and the other,
      if it asks for something, goes to sleep with the count lowered by one when it stops spinning. */
  lemma WaitAnswers(s: State, t: nat, max: nat, blocking: bool)
    requires t < |s.threads| == |s.wanted| == |s.got| && s.threads[t].Idle?
    ensures var s1 := Next(Next(s, if blocking then Wait(t, max) else Try(t, max)), Advance(t, true));
            var s2 := Next(s1, Advance(t, true));
            && (s.count > 0 ==>
                  var n := if s.count < max then s.count else max;
                  && s2.threads == s.threads && s2.count == s.count - n
                  && s2.got == s.got[t := n] && s2.acquired == s.acquired + n && s2.permits == s.permits)
            && (s.count <= 0 && (!blocking || max == 0) ==>
                  && s1.threads == s.threads && s1.count == s.count
                  && s1.got == s.got[t := 0] && s1.acquired == s.acquired && s1.permits == s.permits)
            && (s.count <= 0 && blocking && max > 0 ==>
                  var asleep := Next(s1, Advance(t, false));
                  && asleep.threads == s.threads[t := Sleep(max)] && asleep.count == s.count - 1
                  && asleep.got == s.got[t := 0] && asleep.acquired == s.acquired && asleep.permits == s.permits)
  {
    var s0 := Next(s, if blocking then Wait(t, max) else Try(t, max));
    assert s0 == Goto(Asked(s, t, max), t, TryLoad(max, blocking));
    var s1 := Next(s0, Advance(t, true));
    if s.count > 0 {
      assert s1 == Goto(s0, t, TryCas(max, blocking, s.count));
      assert s.threads[t := Idle] == s.threads;
    } else if blocking && max > 0 {
      assert s1 == Goto(s0, t, Spin(max));
    } else {
      assert s.threads[t := Idle] == s.threads;
    }
  }

  /** A sleeper that wakes has one permit, and a bulk wait then takes what more there is, up to what it still wants. */
  lemma WakeAnswers(s: State, t: nat, max: nat)
    requires t < |s.threads| == |s.wanted| == |s.got| && s.threads[t] == Sleep(max) && s.permits > 0
    ensures var s1 := Next(s, Advance(t, true));
            && s1.permits == s.permits - 1 && s1.got == s.got[t := s.got[t] + 1] && s1.acquired == s.acquired + 1
            && (max <= 1 ==> s1.threads == s.threads[t := Idle] && s1.count == s.count)
            && (max > 1 && s.count > 0 ==>
                  var s3 := Next(Next(s1, Advance(t, true)), Advance(t, true));
                  var n := if s.count < max - 1 then s.count else max - 1;
                  && s3.threads == s.threads[t := Idle] && s3.count == s.count - n
                  && s3.got == s.got[t := s.got[t] + 1 + n])
  {
    var s1 := Next(s, Advance(t, true));
    assert s1 == TakePermit(s, t, max);
    if max > 1 && s.count > 0 {
      var s2 := Next(s1, Advance(t, true));
      assert s2 == Goto(s1, t, TryCas(max - 1, false, s.count));
    }
  }

  /** A sleeper that gives up takes a permit if the count is not negative and there is one; if the count is negative it
      puts back the one it subtracted and is done with nothing. */
  lemma GiveUpAnswers(s: State, t: nat, max: nat)
    requires t < |s.threads| == |s.wanted| == |s.got| && s.threads[t] == Sleep(max)
    ensures var s' := Next(Next(Next(s, Advance(t, false)), Advance(t, true)), Advance(t, true));
            && (s.count >= 0 && s.permits > 0 ==>
                  && s'.permits == s.permits - 1 && s'.got == s.got[t := s.got[t] + 1] && s'.count == s.count)
            && (s.count < 0 ==>
                  && s'.count == s.count + 1 && s'.threads == s.threads[t := Idle]
                  && s'.permits == s.permits && s'.got == s.got && s'.acquired == s.acquired)
  {
    var s1 := Next(s, Advance(t, false));
    assert s1 == Goto(s, t, AdjustLoad(max));
    var s2 := Next(s1, Advance(t, true));
    assert s2 == Goto(s, t, Adjust(max, s.count));
  }

  /** A signal raises the count by n and posts a permit for each waiter that this serves. */
  lemma SignalAnswers(s: State, t: nat, n: nat)
    requires t < |s.threads| == |s.wanted| == |s.got| && s.threads[t].Idle?
    ensures var s1 := Next(s, Signal(t, n));
            var served := if s.count >= 0 then 0 else if -s.count < n then -s.count else n;
            && s1.count == s.count + n && s1.signalled == s.signalled + n && s1.got == s.got
            && (served == 0 ==> s1.threads == s.threads && s1.permits == s.permits)
            && (served > 0 ==>
                  var s2 := Next(s1, Advance(t, true));
                  s2.threads == s.threads && s2.permits == s.permits + served && s2.count == s.count + n)
  {
    assert s.threads[t := Idle] == s.threads;
    var s1 := Next(s, Signal(t, n));
    assert s1 == DoSignal(s, t, n);
  }

  /** A swap that fails, because the count moved or for no reason, is tried again from a new load; nothing is taken. */
  lemma FailedSwapRetries(s: State, t: nat, lucky: bool)
    requires t < |s.threads| == |s.wanted| == |s.got|
    ensures s.threads[t].TryCas? && (s.count != s.threads[t].seen || !lucky) ==>
              Next(s, Advance(t, lucky)) == Goto(s, t, TryLoad(s.threads[t].max, s.threads[t].blocking))
    ensures s.threads[t].SpinCas? && s.count != s.threads[t].seen ==>
              Next(s, Advance(t, lucky)) == Goto(s, t, Spin(s.threads[t].max))
  {
  }

  /** A spinning waiter that finds something takes as much as there is, up to what it wants. */
  lemma SpinAnswers(s: State, t: nat, max: nat)
    requires t < |s.threads| == |s.wanted| == |s.got| && s.threads[t] == Spin(max) && s.count > 0
    ensures var s2 := Next(Next(s, Advance(t, true)), Advance(t, true));
            var n := if s.count < max then s.count else max;
            && s2.threads == s.threads[t := Idle] && s2.count == s.count - n
            && s2.got == s.got[t := s.got[t] + n] && s2.acquired == s.acquired + n
  {
    var s1 := Next(s, Advance(t, true));
    assert s1 == Goto(s, t, SpinCas(max, s.count));
  }
}
