/** No key is lost: how many servers hold a key, against how many transfers of it are half done. */
module StoreConservation {
  import opened Shards
  import opened ShardMasters
  import opened VolumeServers
  import opened Clients
  import opened Store
  import opened StoreSafety

  /** The servers that store key k. */
  function Holders(s: State, k: string): set<string> {
    set a | a in s.nodes && k in s.nodes[a].vs.db
  }

  /** The destination has stored the key, whether or not the source has heard of it. */
  predicate Stands(phase: Phase) {
    phase.Accepted? || phase.Unheard?
  }

  /** The transfers of k that the destination has accepted and that the source has not ended yet. */
  function HalfDone(s: State, k: string): set<nat> {
    set id | id in s.transfers && s.transfers[id].key == k && Stands(s.transfers[id].phase)
  }

  ghost predicate InTransit(s: State, k: string) {
    exists id :: id in s.transfers && s.transfers[id].key == k
  }

  ghost predicate Safe(s: State, k: string) {
    |Holders(s, k)| >= 1 + |HalfDone(s, k)|
  }

  /** Before its first Put a key is nowhere; afterwards it is safe. */
  ghost predicate Conserved(s: State, k: string) {
    Safe(s, k) || (Holders(s, k) == {} && !InTransit(s, k))
  }

  /** Replacing one server's state decides only whether that server holds k. */
  lemma HoldersAfter(s: State, s': State, addr: string, k: string)
    requires addr in s.nodes && addr in s'.nodes && s'.nodes == s.nodes[addr := s'.nodes[addr]]
    ensures Holders(s', k) == if k in s'.nodes[addr].vs.db then Holders(s, k) + {addr} else Holders(s, k) - {addr}
  {
    assert forall a :: a in s'.nodes <==> a in s.nodes;
  }

  /** Setting or changing one transfer decides only whether that transfer is half done. */
  lemma HalfDoneAfter(s: State, s': State, id: nat, t: Transfer, k: string)
    requires s'.transfers == s.transfers[id := t]
    ensures HalfDone(s', k) == if t.key == k && Stands(t.phase) then HalfDone(s, k) + {id} else HalfDone(s, k) - {id}
    ensures InTransit(s', k) ==> InTransit(s, k) || t.key == k
  {
    assert forall i :: i in s'.transfers <==> i in s.transfers || i == id;
    assert forall i :: i in s.transfers && i != id ==> s'.transfers[i] == s.transfers[i];
  }

  /** A step that adds holders and no half-done transfer. */
  lemma Grows(s: State, s': State, k: string)
    requires Conserved(s, k) && Holders(s, k) <= Holders(s', k) && HalfDone(s', k) == HalfDone(s, k)
    requires InTransit(s', k) ==> InTransit(s, k) || Holders(s, k) != {}
    ensures Conserved(s', k) && (Safe(s, k) ==> Safe(s', k))
  {
    SubsetSize(Holders(s, k), Holders(s', k));
    if !InTransit(s, k) {
      assert HalfDone(s, k) == {};
    }
  }

  lemma SubsetSize<T>(a: set<T>, b: set<T>)
    requires a <= b
    ensures |a| <= |b|
  {
    assert b == a + (b - a);
  }

  lemma PutConserves(h: HashFn, s: State, addr: string, key: string, value: string, k: string)
    requires Conserved(s, k) && addr in s.nodes
    ensures var s' := DoPut(h, s, addr, key, value); Conserved(s', k) && (Safe(s, k) ==> Safe(s', k))
  {
    hide Conserved, Safe, Holders, MyKey;
    var s' := DoPut(h, s, addr, key, value);
    HoldersAfter(s, s', addr, k);
    HolderMember(s, addr, k);
    Grows(s, s', k);
  }

  lemma HolderMember(s: State, addr: string, k: string)
    requires addr in s.nodes
    ensures addr in Holders(s, k) <==> k in s.nodes[addr].vs.db
  {
  }

  lemma DequeueConserves(h: HashFn, s: State, addr: string, key: string, id: nat, k: string)
    requires Conserved(s, k) && addr in s.nodes && key in s.nodes[addr].vs.queue && id !in s.transfers
    ensures var s' := DoDequeue(h, s, addr, key, id); Conserved(s', k) && (Safe(s, k) ==> Safe(s', k))
  {
    hide Conserved, Safe, Holders, HalfDone, InTransit;
    var s' := DoDequeue(h, s, addr, key, id);
    HoldersAfter(s, s', addr, k);
    HolderMember(s, addr, k);
    if key in s.nodes[addr].vs.db {
      HalfDoneAfter(s, s', id, s'.transfers[id], k);
      HalfDoneMember(s, id, k);
    } else {
      SameTransfers(s, s', k);
    }
    Grows(s, s', k);
  }

  lemma HalfDoneMember(s: State, id: nat, k: string)
    ensures id in HalfDone(s, k) <==> id in s.transfers && s.transfers[id].key == k && Stands(s.transfers[id].phase)
    ensures id in s.transfers && s.transfers[id].key == k ==> InTransit(s, k)
  {
  }

  lemma SameTransfers(s: State, s': State, k: string)
    requires s'.transfers == s.transfers
    ensures HalfDone(s', k) == HalfDone(s, k) && InTransit(s', k) == InTransit(s, k)
  {
  }

  /** An accepted Put adds a holder and a half-done transfer together, whether or not its reply arrives; a refused
      one adds neither. */
  lemma DeliverConserves(h: HashFn, s: State, id: nat, replyLost: bool, k: string)
    requires Conserved(s, k)
    requires id in s.transfers && s.transfers[id].phase == Sent && s.transfers[id].dest in s.nodes
    ensures var s' := DoDeliver(h, s, id, replyLost); Conserved(s', k) && (Safe(s, k) ==> Safe(s', k))
  {
    hide Conserved, Safe, Holders, HalfDone, InTransit, MyKey;
    var s', t := DoDeliver(h, s, id, replyLost), s.transfers[id];
    HoldersAfter(s, s', t.dest, k);
    HolderMember(s, t.dest, k);
    HalfDoneAfter(s, s', id, s'.transfers[id], k);
    HalfDoneMember(s, id, k);
    if t.key == k && Stands(s'.transfers[id].phase) {
      BothGrow(s, s', k, t.dest, id);
    } else {
      Grows(s, s', k);
    }
  }

  lemma BothGrow(s: State, s': State, k: string, dest: string, id: nat)
    requires Conserved(s, k) && InTransit(s, k)
    requires dest !in Holders(s, k) && Holders(s', k) == Holders(s, k) + {dest}
    requires id !in HalfDone(s, k) && HalfDone(s', k) == HalfDone(s, k) + {id}
    ensures Safe(s', k) && Conserved(s', k)
  {
    hide Holders, HalfDone, InTransit;
  }

  lemma LoseConserves(s: State, id: nat, k: string)
    requires Conserved(s, k) && id in s.transfers && s.transfers[id].phase == Sent
    ensures var s' := s.(transfers := s.transfers[id := s.transfers[id].(phase := Failed)]);
            Conserved(s', k) && (Safe(s, k) ==> Safe(s', k))
  {
    hide Conserved, Safe, HalfDone, InTransit;
    var s' := s.(transfers := s.transfers[id := s.transfers[id].(phase := Failed)]);
    HalfDoneAfter(s, s', id, s'.transfers[id], k);
    HalfDoneMember(s, id, k);
    Grows(s, s', k);
  }

  /** Ending a half-done transfer removes it, and at most one holder. */
  lemma FinishConserves(h: HashFn, s: State, id: nat, k: string)
    requires Conserved(s, k)
    requires id in s.transfers && s.transfers[id].phase != Sent && s.transfers[id].src in s.nodes
    ensures var s' := DoFinish(h, s, id); Conserved(s', k) && (Safe(s, k) ==> Safe(s', k))
  {
    hide Conserved, Safe, Holders, HalfDone, InTransit;
    var s', t := DoFinish(h, s, id), s.transfers[id];
    HoldersAfter(s, s', t.src, k);
    HolderMember(s, t.src, k);
    HalfDoneRemoved(s, s', id, k);
    HalfDoneMember(s, id, k);
    if t.key == k && Stands(t.phase) {
      BothShrink(s, s', k, t.src, id);
    } else {
      Grows(s, s', k);
    }
  }

  lemma HalfDoneRemoved(s: State, s': State, id: nat, k: string)
    requires s'.transfers == s.transfers - {id}
    ensures HalfDone(s', k) == HalfDone(s, k) - {id}
    ensures InTransit(s', k) ==> InTransit(s, k)
  {
  }

  lemma BothShrink(s: State, s': State, k: string, src: string, id: nat)
    requires Conserved(s, k) && InTransit(s, k)
    requires Holders(s', k) == Holders(s, k) - {src} || Holders(s', k) == Holders(s, k)
    requires id in HalfDone(s, k) && HalfDone(s', k) == HalfDone(s, k) - {id}
    ensures Safe(s', k) && Conserved(s', k)
  {
    hide Holders, HalfDone, InTransit;
  }

  lemma DeleteConserves(h: HashFn, s: State, addr: string, key: string, k: string)
    requires Conserved(s, k) && addr in s.nodes && key != k
    ensures var s' := WithVs(s, addr, HandleDelete(h, s.nodes[addr].vs, key).0);
            Conserved(s', k) && (Safe(s, k) ==> Safe(s', k))
  {
    hide Conserved, Safe, Holders, HalfDone, InTransit, MyKey;
    var s' := WithVs(s, addr, HandleDelete(h, s.nodes[addr].vs, key).0);
    HoldersAfter(s, s', addr, k);
    HolderMember(s, addr, k);
    SameTransfers(s, s', k);
    Grows(s, s', k);
  }

  /** What a step other than a Put, a Delete or a move of a transfer leaves alone. */
  ghost predicate DataKept(s: State, s': State) {
    && s'.transfers == s.transfers && s.written == s'.written
    && (forall a :: a in s.nodes ==> a in s'.nodes && s'.nodes[a].vs.db == s.nodes[a].vs.db)
    && (forall a :: a in s'.nodes && a !in s.nodes ==> s'.nodes[a].vs.db == map[])
  }

  predicate TouchesNoData(step: Step) {
    || step.MasterRequest? || step.StartServer? || step.AskNum? || step.AskConfig? || step.AdoptConfig?
    || step.NewClient? || step.ClientAskNum? || step.ClientAskConfig?
  }

  lemma DataUntouched(h: HashFn, s: State, step: Step)
    requires Enabled(h, s, step) && TouchesNoData(step)
    ensures DataKept(s, Apply(h, s, step))
  {
    hide DataKept, Handle, Adopt, ChunksInRange, Legal, Registered, Refresh;
    var s' := Apply(h, s, step);
    match step
    case MasterRequest(req) => SameData(s, s');
    case StartServer(addr) => ServerData(s, s', addr);
    case AskNum(addr) => ServerData(s, s', addr);
    case AskConfig(addr) => ServerData(s, s', addr);
    case AdoptConfig(addr) =>
      AdoptKeepsDb(s.nodes[addr].vs, s.nodes[addr].poll.num, s.nodes[addr].poll.config);
      ServerData(s, s', addr);
    case NewClient(_) => SameData(s, s');
    case ClientAskNum(_) => SameData(s, s');
    case ClientAskConfig(_, _) => SameData(s, s');
  }

  lemma SameData(s: State, s': State)
    requires s'.transfers == s.transfers && s.written == s'.written && s'.nodes == s.nodes
    ensures DataKept(s, s')
  {
  }

  lemma ServerData(s: State, s': State, addr: string)
    requires s'.transfers == s.transfers && s.written == s'.written
    requires addr in s'.nodes && s'.nodes == s.nodes[addr := s'.nodes[addr]]
    requires s'.nodes[addr].vs.db == if addr in s.nodes then s.nodes[addr].vs.db else map[]
    ensures DataKept(s, s')
  {
  }

  lemma AdoptKeepsDb(vs: VS, num: nat, config: Config)
    requires Sized(vs) && ChunksInRange(Diff(config, vs.myConfig))
    ensures Adopt(vs, num, config).db == vs.db
  {
    hide Diff, ChunksInRange;
  }

  /** Steps that touch neither a stored key nor a transfer. */
  lemma OtherConserves(s: State, s': State, k: string)
    requires Conserved(s, k) && DataKept(s, s')
    ensures Conserved(s', k) && (Safe(s, k) ==> Safe(s', k))
  {
    SameTransfers(s, s', k);
    assert Holders(s, k) <= Holders(s', k);
    Grows(s, s', k);
  }

  lemma NextConserves(h: HashFn, s: State, step: Step, k: string)
    requires Conserved(s, k) && !(step.ClientDelete? && step.key == k)
    ensures Conserved(Next(h, s, step), k) && (Safe(s, k) ==> Safe(Next(h, s, step), k))
  {
    hide Conserved, Safe;
    if Enabled(h, s, step) {
      match step
      case ClientPut(addr, key, value) => PutConserves(h, s, addr, key, value, k);
      case ClientDelete(addr, key) => DeleteConserves(h, s, addr, key, k);
      case Dequeue(addr, key, id) => DequeueConserves(h, s, addr, key, id, k);
      case DeliverPut(id, replyLost) => DeliverConserves(h, s, id, replyLost, k);
      case LosePut(id) => LoseConserves(s, id, k);
      case FinishTransfer(id) => FinishConserves(h, s, id, k);
      case _ =>
        DataUntouched(h, s, step);
        OtherConserves(s, Apply(h, s, step), k);
    }
  }

  ghost predicate NeverDeleted(steps: seq<Step>, k: string) {
    forall i :: 0 <= i < |steps| ==> !(steps[i].ClientDelete? && steps[i].key == k)
  }

  lemma {:induction false} ConservedInEveryRun(h: HashFn, steps: seq<Step>, k: string)
    requires NeverDeleted(steps, k)
    ensures Conserved(Exec(h, INIT, steps), k)
  {
    if steps != [] {
      ConservedInEveryRun(h, steps[..|steps| - 1], k);
      NextConserves(h, Exec(h, INIT, steps[..|steps| - 1]), steps[|steps| - 1], k);
    }
  }

  /** Key conservation: in a run whose clients never delete k, once some server has stored k, at every later
      point the servers holding k outnumber its half-done transfers, so at least one holds it. */
  lemma {:induction false} KeyNeverLost(h: HashFn, steps: seq<Step>, i: nat, k: string)
    requires NeverDeleted(steps, k) && i <= |steps|
    requires Holders(Exec(h, INIT, steps[..i]), k) != {}
    ensures Safe(Exec(h, INIT, steps), k) && Holders(Exec(h, INIT, steps), k) != {}
    decreases |steps|
  {
    if i == |steps| {
      assert steps[..i] == steps;
      ConservedInEveryRun(h, steps, k);
    } else {
      var init := steps[..|steps| - 1];
      assert init[..i] == steps[..i];
      KeyNeverLost(h, init, i, k);
      NextConserves(h, Exec(h, INIT, init), steps[|steps| - 1], k);
    }
  }

  // Provenance

  /** Every copy of a value, stored or in flight, was put for its key by a client. */
  ghost predicate Genuine(s: State) {
    && (forall a, k :: a in s.nodes && k in s.nodes[a].vs.db ==> (k, s.nodes[a].vs.db[k]) in s.written)
    && (forall id :: id in s.transfers ==> (s.transfers[id].key, s.transfers[id].value) in s.written)
  }

  lemma DataKeptGenuine(s: State, s': State)
    requires Genuine(s) && DataKept(s, s')
    ensures Genuine(s')
  {
  }

  /** One server's state replaced, nothing forgotten, and what is new is genuine. */
  lemma ServerGenuine(s: State, s': State, addr: string)
    requires Genuine(s) && s.written <= s'.written
    requires addr in s'.nodes && s'.nodes == s.nodes[addr := s'.nodes[addr]]
    requires var db := s'.nodes[addr].vs.db; forall k :: k in db ==> (k, db[k]) in s'.written
    requires forall id :: id in s'.transfers ==> (s'.transfers[id].key, s'.transfers[id].value) in s'.written
    ensures Genuine(s')
  {
  }

  lemma PutGenuine(h: HashFn, s: State, addr: string, key: string, value: string)
    requires Genuine(s) && addr in s.nodes
    ensures Genuine(DoPut(h, s, addr, key, value))
  {
    hide MyKey, ChunkOf;
    ServerGenuine(s, DoPut(h, s, addr, key, value), addr);
  }

  lemma DequeueGenuine(h: HashFn, s: State, addr: string, key: string, id: nat)
    requires Genuine(s) && addr in s.nodes && key in s.nodes[addr].vs.queue && id !in s.transfers
    ensures Genuine(DoDequeue(h, s, addr, key, id))
  {
    ServerGenuine(s, DoDequeue(h, s, addr, key, id), addr);
  }

  lemma DeliverGenuine(h: HashFn, s: State, id: nat, replyLost: bool)
    requires Genuine(s) && id in s.transfers && s.transfers[id].dest in s.nodes
    ensures Genuine(DoDeliver(h, s, id, replyLost))
  {
    hide MyKey, ChunkOf;
    ServerGenuine(s, DoDeliver(h, s, id, replyLost), s.transfers[id].dest);
  }

  lemma FinishGenuine(h: HashFn, s: State, id: nat)
    requires Genuine(s) && id in s.transfers && s.transfers[id].src in s.nodes
    ensures Genuine(DoFinish(h, s, id))
  {
    ServerGenuine(s, DoFinish(h, s, id), s.transfers[id].src);
  }

  lemma DeleteGenuine(h: HashFn, s: State, addr: string, key: string)
    requires Genuine(s) && addr in s.nodes
    ensures Genuine(WithVs(s, addr, HandleDelete(h, s.nodes[addr].vs, key).0))
  {
    hide MyKey, ChunkOf;
    ServerGenuine(s, WithVs(s, addr, HandleDelete(h, s.nodes[addr].vs, key).0), addr);
  }

  lemma LoseGenuine(s: State, id: nat)
    requires Genuine(s) && id in s.transfers
    ensures Genuine(s.(transfers := s.transfers[id := s.transfers[id].(phase := Failed)]))
  {
  }

  lemma NextGenuine(h: HashFn, s: State, step: Step)
    requires Genuine(s)
    ensures Genuine(Next(h, s, step))
  {
    hide Genuine, DataKept, DoPut, DoDequeue, DoDeliver, DoFinish, HandleDelete;
    if Enabled(h, s, step) {
      match step
      case ClientPut(addr, key, value) => PutGenuine(h, s, addr, key, value);
      case ClientDelete(addr, key) => DeleteGenuine(h, s, addr, key);
      case Dequeue(addr, key, id) => DequeueGenuine(h, s, addr, key, id);
      case DeliverPut(id, replyLost) => DeliverGenuine(h, s, id, replyLost);
      case LosePut(id) => LoseGenuine(s, id);
      case FinishTransfer(id) => FinishGenuine(h, s, id);
      case _ =>
        DataUntouched(h, s, step);
        DataKeptGenuine(s, Apply(h, s, step));
    }
  }

  lemma {:induction false} GenuineInEveryRun(h: HashFn, steps: seq<Step>)
    ensures Genuine(Exec(h, INIT, steps))
  {
    if steps != [] {
      GenuineInEveryRun(h, steps[..|steps| - 1]);
      NextGenuine(h, Exec(h, INIT, steps[..|steps| - 1]), steps[|steps| - 1]);
    }
  }
}
