/** The blocking queue (blockingconcurrentqueue.h): an inner queue guarded by the lightweight semaphore. The
    inner queue is a multiset of items; the semaphore is the full machine of `Semaphores`, thread for thread. */
module BlockingQueues {
  import opened Sums
  import Sem = Semaphores

  /** `held[t]`: permits thread t has taken and not yet spent on an item. `unsignalled[t]`: items it has put in
      the inner queue without having signalled them. `enqueued` and `delivered` record the past. */
  datatype State<T(==)> = State(
    sem: Sem.State,
    inner: multiset<T>,
    held: seq<nat>,
    unsignalled: seq<nat>,
    enqueued: multiset<T>,
    delivered: multiset<T>)

  datatype Step<T(==)> =
    | Insert(t: nat, items: multiset<T>)
    | SignalItems(t: nat)
    | WaitItems(t: nat, max: nat, blocking: bool)
    | SemStep(t: nat, lucky: bool)
    | Remove(t: nat, items: multiset<T>)

  function Init<T(==)>(threads: nat): State<T> {
    State(Sem.Init(0, threads), multiset{}, seq(threads, _ => 0), seq(threads, _ => 0), multiset{}, multiset{})
  }

  predicate Sized(s: State) {
    |s.held| == |s.unsignalled| == |s.sem.threads| == |s.sem.got| == |s.sem.wanted|
  }

  /** Program order: an operation starts when the thread has finished the previous one; items are signalled
      after they were inserted; items are removed after the wait has returned, and no more than it returned. */
  predicate Enabled<T>(s: State<T>, step: Step<T>) {
    && Sized(s) && step.t < |s.held| && (step.SemStep? || s.sem.threads[step.t].Idle?)
    && match step
       case Insert(t, _) => s.held[t] == 0 && s.unsignalled[t] == 0
       case SignalItems(t) => true
       case WaitItems(t, _, _) => s.held[t] == 0 && s.unsignalled[t] == 0
       case SemStep(t, lucky) => Sem.Enabled(s.sem, Sem.Advance(t, lucky))
       case Remove(t, items) => items <= s.inner && |items| <= s.held[t]
  }

  /** The permits that one step of the semaphore gave to the thread that made it. */
  function Gained(before: Sem.State, after: Sem.State): int {
    after.acquired - before.acquired
  }

  function Apply<T>(s: State<T>, step: Step<T>): State<T>
    requires Enabled(s, step)
  {
    match step
    case Insert(t, items) =>
      s.(inner := s.inner + items, enqueued := s.enqueued + items, unsignalled := s.unsignalled[t := |items|])
    case SignalItems(t) =>
      s.(sem := Sem.Next(s.sem, Sem.Signal(t, s.unsignalled[t])), unsignalled := s.unsignalled[t := 0])
    case WaitItems(t, max, blocking) =>
      s.(sem := Sem.Next(s.sem, if blocking then Sem.Wait(t, max) else Sem.Try(t, max)))
    case SemStep(t, lucky) =>
      var sem := Sem.Next(s.sem, Sem.Advance(t, lucky));
      s.(sem := sem, held := s.held[t := s.held[t] + if Gained(s.sem, sem) >= 0 then Gained(s.sem, sem) else 0])
    case Remove(t, items) =>
      s.(inner := s.inner - items, delivered := s.delivered + items, held := s.held[t := s.held[t] - |items|])
  }

  function Next<T>(s: State<T>, step: Step<T>): State<T> {
    if Enabled(s, step) then Apply(s, step) else s
  }

  function Exec<T>(s: State<T>, steps: seq<Step<T>>): State<T> {
    if steps == [] then s else Next(Exec(s, steps[..|steps| - 1]), steps[|steps| - 1])
  }

  function Weight(): nat -> int {
    (n: nat) => n
  }

  function Total(s: seq<nat>): int {
    Sum(s, Weight())
  }

  /** Permits available in the semaphore: counted, posted, or about to be posted. */
  function Available(sem: Sem.State): int {
    Sem.Pos(sem.count) + sem.permits + Sem.Unposted(sem.threads)
  }

  /** Every item in the inner queue is matched by a permit: available, taken and unspent, or still unsignalled. */
  ghost predicate Inv<T(!new)>(s: State<T>) {
    && Sized(s) && Sem.Inv(s.sem) && s.sem.initial == 0
    && |s.inner| == Available(s.sem) + Total(s.held) + Total(s.unsignalled)
    && s.enqueued == s.inner + s.delivered
    && Sem.SharesInv(s.sem) && forall t :: 0 <= t < |s.held| ==> s.held[t] <= s.sem.got[t]
  }

  lemma TotalUpdate(s: seq<nat>, t: nat, n: nat)
    requires t < |s|
    ensures Total(s[t := n]) == Total(s) - s[t] + n
  {
    SumUpdate(s, t, n, Weight());
  }

  /** A semaphore step changes what is available by what is signalled minus what is acquired. */
  lemma SemBalance(sem: Sem.State, step: Sem.Step)
    requires Sem.Inv(sem) && sem.initial == 0
    ensures var sem' := Sem.Next(sem, step);
            && Sem.Inv(sem') && sem'.initial == 0 && |sem'.threads| == |sem.threads|
            && Available(sem') == Available(sem) + (sem'.signalled - sem.signalled) - Gained(sem, sem')
  {
    hide Sem.Next;
    Sem.NextKeepsInv(sem, step);
  }

  /** What one step of a thread gives, and to whom. */
  lemma SemDeltas(sem: Sem.State, t: nat, n: nat, lucky: bool, blocking: bool)
    requires t < |sem.threads| == |sem.got| == |sem.wanted|
    ensures sem.threads[t].Idle? ==>
              var (signal, wait) := (Sem.Next(sem, Sem.Signal(t, n)),
                                     Sem.Next(sem, if blocking then Sem.Wait(t, n) else Sem.Try(t, n)));
              && signal.signalled == sem.signalled + n && Gained(sem, signal) == 0 && signal.got == sem.got
              && wait.signalled == sem.signalled && Gained(sem, wait) == 0 && wait.got == sem.got[t := 0]
    ensures var step := Sem.Next(sem, Sem.Advance(t, lucky));
            && step.signalled == sem.signalled && 0 <= Gained(sem, step)
            && step.got == sem.got[t := sem.got[t] + Gained(sem, step)]
  {
    assert sem.got[t := sem.got[t]] == sem.got;
  }

  lemma NextKeepsInv<T(!new)>(s: State<T>, step: Step<T>)
    requires Inv(s)
    ensures Inv(Next(s, step))
  {
    hide Sem.Next, Sem.Inv, Sem.Enabled, Total, Available, Sem.ShareInv;
    if Enabled(s, step) {
      match step
      case Insert(t, items) => TotalUpdate(s.unsignalled, t, |items|);
      case SignalItems(t) =>
        TotalUpdate(s.unsignalled, t, 0);
        SemDeltas(s.sem, t, s.unsignalled[t], true, true);
        SemBalance(s.sem, Sem.Signal(t, s.unsignalled[t]));
        Sem.NextKeepsShares(s.sem, Sem.Signal(t, s.unsignalled[t]));
      case WaitItems(t, max, blocking) =>
        SemDeltas(s.sem, t, max, true, blocking);
        SemBalance(s.sem, if blocking then Sem.Wait(t, max) else Sem.Try(t, max));
        Sem.NextKeepsShares(s.sem, if blocking then Sem.Wait(t, max) else Sem.Try(t, max));
      case SemStep(t, lucky) =>
        SemDeltas(s.sem, t, 0, lucky, true);
        SemBalance(s.sem, Sem.Advance(t, lucky));
        Sem.NextKeepsShares(s.sem, Sem.Advance(t, lucky));
        TotalUpdate(s.held, t, Next(s, step).held[t]);
      case Remove(t, items) =>
        TotalUpdate(s.held, t, s.held[t] - |items|);
        assert s.inner == (s.inner - items) + items;
    }
  }

  lemma {:induction false} InvInEveryRun<T(!new)>(threads: nat, steps: seq<Step<T>>)
    ensures Inv(Exec(Init<T>(threads), steps))
  {
    if steps == [] {
      var s := Init<T>(threads);
      Sem.AccountingInEveryRun(0, threads, []);
      SumZero(s.held, Weight());
      SumZero(s.unsignalled, Weight());
      SumZero(s.sem.threads, Sem.PostWeight());
    } else {
      hide Inv, Next;
      InvInEveryRun(threads, steps[..|steps| - 1]);
      NextKeepsInv(Exec(Init<T>(threads), steps[..|steps| - 1]), steps[|steps| - 1]);
    }
  }

  /** A consumer inside its retry loop never faces an empty inner queue: in every run, the inner queue holds at
      least as many items as any thread holds unspent permits, whatever the other threads do. */
  lemma PermitHolderNeverStarves<T(!new)>(threads: nat, steps: seq<Step<T>>, t: nat)
    requires t < |Exec(Init<T>(threads), steps).held|
    ensures Exec(Init<T>(threads), steps).held[t] <= |Exec(Init<T>(threads), steps).inner|
  {
    hide Next, Exec;
    InvInEveryRun(threads, steps);
    var s := Exec(Init<T>(threads), steps);
    SumAtLeast(s.held, t, Weight());
    SumNonNegative(s.unsignalled, Weight());
    Sem.CountsNonNegative(s.sem.threads);
  }

  /** No item is lost or duplicated: what was enqueued is what is inside plus what was delivered. */
  lemma {:induction false} ItemsConserved<T(!new)>(threads: nat, steps: seq<Step<T>>)
    ensures var s := Exec(Init<T>(threads), steps);
            s.enqueued == s.inner + s.delivered
  {
    InvInEveryRun(threads, steps);
  }

  /** In every run a consumer holds no more permits than it asked for. */
  lemma NeverMoreThanAsked<T(!new)>(threads: nat, steps: seq<Step<T>>, t: nat)
    requires t < |Exec(Init<T>(threads), steps).held|
    ensures var s := Exec(Init<T>(threads), steps); Sized(s) && s.held[t] <= s.sem.wanted[t]
  {
    InvInEveryRun(threads, steps);
    var s := Exec(Init<T>(threads), steps);
    assert Sem.ShareInv(s.sem, t);
    hide Exec;
  }

  // What operations answer when nobody interferes

  predicate Free<T>(s: State<T>, t: nat) {
    Sized(s) && t < |s.held| && s.sem.threads[t].Idle? && s.held[t] == 0 && s.unsignalled[t] == 0
  }

  /** An enqueue puts its items in, all of them, and raises the semaphore by their number. */
  lemma EnqueueAnswers<T>(s: State<T>, t: nat, items: multiset<T>)
    requires Free(s, t)
    ensures var s' := Next(Next(s, Insert(t, items)), SignalItems(t));
            && s'.inner == s.inner + items && s'.enqueued == s.enqueued + items && s'.delivered == s.delivered
            && s'.unsignalled == s.unsignalled && s'.held == s.held
            && s'.sem == Sem.Next(s.sem, Sem.Signal(t, |items|)) && s'.sem.count == s.sem.count + |items|
  {
    Sem.SignalAnswers(s.sem, t, |items|);
    hide Sem.Next;
    var s1 := Next(s, Insert(t, items));
    assert s1.unsignalled[t] == |items| && s1.sem == s.sem;
    assert s.unsignalled[t := |items|][t := 0] == s.unsignalled;
  }

  /** A dequeue takes permits as its wait does: with permits there, as many as there are up to max, whether or not it
      may block; without, the one that may not block is done with none and the other goes to sleep. */
  lemma DequeueAnswers<T>(s: State<T>, t: nat, max: nat, blocking: bool)
    requires Free(s, t)
    ensures var s1 := Next(Next(s, WaitItems(t, max, blocking)), SemStep(t, true));
            var s2 := Next(s1, SemStep(t, true));
            && (s.sem.count > 0 ==>
                  && s2.sem.threads == s.sem.threads && s2.inner == s.inner
                  && s2.held == s.held[t := if s.sem.count < max then s.sem.count else max])
            && (s.sem.count <= 0 && (!blocking || max == 0) ==>
                  s1.sem.threads == s.sem.threads && s1.held == s.held && s1.inner == s.inner)
            && (s.sem.count <= 0 && blocking && max > 0 ==>
                  && Next(s1, SemStep(t, false)).sem.threads == s.sem.threads[t := Sem.Sleep(max)]
                  && Next(s1, SemStep(t, false)).held == s.held)
  {
    Sem.WaitAnswers(s.sem, t, max, blocking);
    var s0 := Next(s, WaitItems(t, max, blocking));
    assert s0 == s.(sem := Sem.Next(s.sem, if blocking then Sem.Wait(t, max) else Sem.Try(t, max)));
    assert s.held[t := 0] == s.held;
    var s1 := Next(s0, SemStep(t, true));
    assert s1.sem == Sem.Next(s0.sem, Sem.Advance(t, true));
  }

  /** A removal hands over exactly the items taken and spends a permit for each. */
  lemma RemoveAnswers<T>(s: State<T>, t: nat, items: multiset<T>)
    requires Sized(s) && t < |s.held| && s.sem.threads[t].Idle? && items <= s.inner && |items| <= s.held[t]
    ensures var s' := Next(s, Remove(t, items));
            && s'.inner + items == s.inner && s'.delivered == s.delivered + items
            && s'.held[t] + |items| == s.held[t] && s'.sem == s.sem
  {
    assert s.inner - items + items == s.inner;
  }
}
