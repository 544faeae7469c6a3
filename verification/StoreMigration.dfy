/** Where migrating keys go, and that they get there: every transfer is bound for a server that the master made the
    owner of the key's chunk, and a transfer that the destination accepts moves the key, with its value. */
module StoreMigration {
  import opened Common
  import opened Shards
  import opened ShardMasters
  import opened VolumeServers
  import opened Store
  import opened StoreSafety

  /** Some configuration numbered num or later makes d the owner of chunk c. */
  ghost predicate OwnerSince(history: seq<Config>, num: nat, c: nat, d: string) {
    exists m :: num <= m < |history| && Owner(history[m], c) == Some(d)
  }

  type Marks = seq<(string, nat)>

  /** The key's chunk has a recorded destination. */
  predicate Marked(h: HashFn, marks: Marks, key: string) {
    ChunkOf(h, key) < |marks| && 0 < marks[ChunkOf(h, key)].1
  }

  /** A recorded destination is another server, and an owner of the chunk since the recorded number. */
  ghost predicate MarksInv(marks: Marks, addr: string, history: seq<Config>) {
    forall c: nat :: c < |marks| && 0 < marks[c].1 ==>
      marks[c].0 != addr && OwnerSince(history, marks[c].1, c, marks[c].0)
  }

  /** Every queued key has a recorded destination. */
  ghost predicate QueueInv(h: HashFn, queue: multiset<string>, marks: Marks) {
    forall k :: k in queue ==> Marked(h, marks, k)
  }

  ghost predicate TransferInv(h: HashFn, s: State, t: Transfer) {
    && t.src in s.nodes && Marked(h, s.nodes[t.src].vs.toMove, t.key)
    && t.dest != t.src && OwnerSince(s.history, 1, ChunkOf(h, t.key), t.dest)
  }

  ghost predicate ServerInv(h: HashFn, vs: VS, addr: string, history: seq<Config>) {
    MarksInv(vs.toMove, addr, history) && QueueInv(h, vs.queue, vs.toMove)
  }

  ghost predicate RoutesInv(h: HashFn, s: State) {
    && (forall a :: a in s.nodes ==> ServerInv(h, s.nodes[a].vs, a, s.history))
    && (forall id :: id in s.transfers ==> TransferInv(h, s, s.transfers[id]))
  }

  // What a step may do to marks and transfers

  lemma OwnerSinceExtends(history: seq<Config>, history': seq<Config>, num: nat, c: nat, d: string)
    requires OwnerSince(history, num, c, d) && history <= history'
    ensures OwnerSince(history', num, c, d)
  {
    var m :| num <= m < |history| && Owner(history[m], c) == Some(d);
    assert history'[m] == history[m];
  }

  lemma MarksExtend(marks: Marks, addr: string, history: seq<Config>, history': seq<Config>)
    requires MarksInv(marks, addr, history) && history <= history'
    ensures MarksInv(marks, addr, history')
  {
    hide OwnerSince;
    forall c: nat | c < |marks| && 0 < marks[c].1
      ensures marks[c].0 != addr && OwnerSince(history', marks[c].1, c, marks[c].0)
    {
      OwnerSinceExtends(history, history', marks[c].1, c, marks[c].0);
    }
  }

  /** No mark is erased. */
  ghost predicate MarksGrow(marks: Marks, marks': Marks) {
    |marks| == |marks'| && forall c: nat :: c < |marks| && 0 < marks[c].1 ==> 0 < marks'[c].1
  }

  /** What every step does to the nodes: it forgets none and erases no mark. */
  ghost predicate NodesKept(s: State, s': State) {
    && s.history <= s'.history
    && forall a :: a in s.nodes ==> a in s'.nodes && MarksGrow(s.nodes[a].vs.toMove, s'.nodes[a].vs.toMove)
  }

  lemma TransferKept(h: HashFn, s: State, s': State, t: Transfer, phase: Phase)
    requires NodesKept(s, s') && TransferInv(h, s, t)
    ensures TransferInv(h, s', t.(phase := phase))
  {
    hide OwnerSince, ChunkOf;
    OwnerSinceExtends(s.history, s'.history, 1, ChunkOf(h, t.key), t.dest);
    assert MarksGrow(s.nodes[t.src].vs.toMove, s'.nodes[t.src].vs.toMove);
  }

  /** Transfers that go on keep their ends; none is new. */
  ghost predicate TransfersKept(s: State, s': State) {
    forall id :: id in s'.transfers ==>
      id in s.transfers && s'.transfers[id] == s.transfers[id].(phase := s'.transfers[id].phase)
  }

  lemma RoutesKept(h: HashFn, s: State, s': State)
    requires RoutesInv(h, s) && NodesKept(s, s') && TransfersKept(s, s')
    requires forall a :: a in s'.nodes ==> ServerInv(h, s'.nodes[a].vs, a, s'.history)
    ensures RoutesInv(h, s')
  {
    hide NodesKept, ServerInv, TransferInv;
    forall id | id in s'.transfers ensures TransferInv(h, s', s'.transfers[id]) {
      TransferKept(h, s, s', s.transfers[id], s'.transfers[id].phase);
    }
  }

  /** One server's state replaced, by one that keeps its part. */
  lemma ServerRoutes(h: HashFn, s: State, s': State, addr: string)
    requires RoutesInv(h, s) && s'.history == s.history && TransfersKept(s, s')
    requires addr in s.nodes && addr in s'.nodes && s'.nodes == s.nodes[addr := s'.nodes[addr]]
    requires ServerInv(h, s'.nodes[addr].vs, addr, s.history)
    requires MarksGrow(s.nodes[addr].vs.toMove, s'.nodes[addr].vs.toMove)
    ensures RoutesInv(h, s')
  {
    hide ServerInv, TransfersKept, TransferInv;
    assert NodesKept(s, s');
    RoutesKept(h, s, s');
  }

  /** One server's state replaced, with the same marks and no new key in the queue. */
  lemma QuietRoutes(h: HashFn, s: State, s': State, addr: string)
    requires RoutesInv(h, s) && s'.history == s.history && TransfersKept(s, s')
    requires addr in s.nodes && addr in s'.nodes && s'.nodes == s.nodes[addr := s'.nodes[addr]]
    requires s'.nodes[addr].vs.toMove == s.nodes[addr].vs.toMove
    requires s'.nodes[addr].vs.queue == s.nodes[addr].vs.queue
    ensures RoutesInv(h, s')
  {
    assert ServerInv(h, s.nodes[addr].vs, addr, s.history);
    hide TransfersKept, RoutesInv, MarksInv, QueueInv;
    ServerRoutes(h, s, s', addr);
  }

  lemma SameNodesRoutes(h: HashFn, s: State, s': State)
    requires RoutesInv(h, s) && s'.nodes == s.nodes && s.history <= s'.history && TransfersKept(s, s')
    ensures RoutesInv(h, s')
  {
    hide TransfersKept, MarksInv, QueueInv, TransferInv;
    assert NodesKept(s, s');
    forall a | a in s'.nodes ensures ServerInv(h, s'.nodes[a].vs, a, s'.history) {
      assert ServerInv(h, s.nodes[a].vs, a, s.history);
      MarksExtend(s.nodes[a].vs.toMove, a, s.history, s'.history);
    }
    RoutesKept(h, s, s');
  }

  // The steps

  lemma MasterRoutes(h: HashFn, s: State, req: Request)
    requires RoutesInv(h, s)
    ensures RoutesInv(h, DoMaster(s, req)) && DoMaster(s, req).nodes == s.nodes
  {
    hide RoutesInv, Handle;
    SameNodesRoutes(h, s, DoMaster(s, req));
  }

  lemma FreshRoutes(h: HashFn, s: State, addr: string)
    requires RoutesInv(h, s) && addr !in s.nodes
    ensures RoutesInv(h, s.(nodes := s.nodes[addr := Node(Fresh(addr), Idle)]))
  {
    var s' := s.(nodes := s.nodes[addr := Node(Fresh(addr), Idle)]);
    assert ServerInv(h, Fresh(addr), addr, s.history);
    hide ServerInv, TransferInv;
    assert NodesKept(s, s');
    RoutesKept(h, s, s');
  }

  lemma PollRoutes(h: HashFn, s: State, addr: string)
    requires RoutesInv(h, s) && addr in s.nodes
    ensures RoutesInv(h, DoAskNum(s, addr))
    ensures s.nodes[addr].poll.GotNum? ==> RoutesInv(h, DoAskConfig(s, addr))
  {
    hide RoutesInv;
    QuietRoutes(h, s, DoAskNum(s, addr), addr);
    if s.nodes[addr].poll.GotNum? {
      QuietRoutes(h, s, DoAskConfig(s, addr), addr);
    }
  }

  /** What adopting a configuration does to the marks: listed chunks get their new owner and the number. */
  lemma AdoptMarks(vs: ServerState, addr: string, history: seq<Config>, num: nat, config: Config, marks: Marks)
    requires ProperEntry(vs.myConfig) && (vs.myConfig.shards != [] ==> vs.myConfig.addr == addr)
    requires GoodConfig(config) && NotOlder(history, num, config) && 0 < num
    requires MarksInv(vs.toMove, addr, history) && |marks| == |vs.toMove| == NUM_CHUNKS + 1
    requires var removed := Diff(config, vs.myConfig);
             && ChunksInRange(removed)
             && (forall i :: 0 <= i < |removed| ==> marks[removed[i].0] == (removed[i].1, num))
             && (forall c: nat :: c <= NUM_CHUNKS && !Mentions(removed, c) ==> marks[c] == vs.toMove[c])
    ensures MarksInv(marks, addr, history) && MarksGrow(vs.toMove, marks)
    ensures forall c: nat :: Mentions(Diff(config, vs.myConfig), c) ==> c < |marks| && 0 < marks[c].1
  {
    hide Diff, GoodConfig, ProperEntry, NotOlder;
    var removed := Diff(config, vs.myConfig);
    forall c: nat | c < |marks|
      ensures 0 < vs.toMove[c].1 ==> 0 < marks[c].1
      ensures 0 < marks[c].1 ==> marks[c].0 != addr && OwnerSince(history, marks[c].1, c, marks[c].0)
    {
      if Mentions(removed, c) {
        var i :| 0 <= i < |removed| && removed[i].0 == c;
        LostChunkOwner(vs, addr, history, num, config, removed[i]);
      }
    }
  }

  lemma LostChunkOwner(
    vs: VS, addr: string, history: seq<Config>, num: nat, config: Config, lost: (nat, string))
    requires ProperEntry(vs.myConfig) && (vs.myConfig.shards != [] ==> vs.myConfig.addr == addr)
    requires GoodConfig(config) && NotOlder(history, num, config) && lost in Diff(config, vs.myConfig)
    ensures lost.1 != addr && OwnerSince(history, num, lost.0, lost.1)
  {
    DiffMember(config, vs.myConfig, lost.0, lost.1);
    hide Diff, GoodConfig, Owner;
    var i :| 0 <= i < |vs.myConfig.shards| && InShard(lost.0, vs.myConfig.shards[i]);
    var m :| num <= m < |history| && history[m] == config;
    assert Owner(history[m], lost.0) == Some(lost.1);
  }

  /** A configuration from the history, adopted: the marks stay right and every key it queues has one. */
  lemma AdoptServer(h: HashFn, vs: ServerState, addr: string, history: seq<Config>, num: nat, config: Config)
    requires VsInv(h, vs, addr, history) && ServerInv(h, vs, addr, history)
    requires vs.configNum < num && NotOlder(history, num, config) && GoodConfig(config)
    ensures ChunksInRange(Diff(config, vs.myConfig))
    ensures var r := Adopt(vs, num, config); ServerInv(h, r, addr, history) && MarksGrow(vs.toMove, r.toMove)
  {
    var removed := Diff(config, vs.myConfig);
    DiffFacts(config, vs.myConfig);
    var mid := Refreshed(vs, num, config);
    assert IndexAgrees(h, mid);
    MarkMovesExact(h, mid, removed);
    var r := Adopt(vs, num, config);
    AdoptMarks(vs, addr, history, num, config, r.toMove);
    hide IndexAgrees, Diff, MarkMoves, GoodConfig, MarksInv, ChunkOf, Mentions, VsInv, NotOlder;
    forall k | k in r.queue ensures Marked(h, r.toMove, k) {
      if k in vs.queue {
        assert Marked(h, vs.toMove, k);
      }
    }
  }

  lemma AdoptNodeMarks(h: HashFn, node: Node, addr: string, s: State, inFlight: set<string>)
    requires MasterInv(s) && NodeInv(h, node, addr, s.history, inFlight) && node.poll.GotConfig?
    requires ServerInv(h, node.vs, addr, s.history)
    ensures ChunksInRange(Diff(node.poll.config, node.vs.myConfig))
    ensures var r := Adopt(node.vs, node.poll.num, node.poll.config);
            ServerInv(h, r, addr, s.history) && MarksGrow(node.vs.toMove, r.toMove)
  {
    var m :| node.poll.num <= m < |s.history| && s.history[m] == node.poll.config;
    AdoptServer(h, node.vs, addr, s.history, node.poll.num, node.poll.config);
  }

  lemma AdoptRoutes(h: HashFn, s: State, addr: string)
    requires Inv(h, s) && RoutesInv(h, s) && addr in s.nodes && s.nodes[addr].poll.GotConfig?
    ensures ChunksInRange(Diff(s.nodes[addr].poll.config, s.nodes[addr].vs.myConfig))
    ensures RoutesInv(h, DoAdopt(s, addr))
  {
    hide NodeInv, MasterInv, ServerInv, MarksGrow, TransferInv, Adopt, ChunksInRange, ClientInv, InFlight;
    AdoptNodeMarks(h, s.nodes[addr], addr, s, InFlight(s, addr));
    ServerRoutes(h, s, DoAdopt(s, addr), addr);
  }

  lemma PutRoutes(h: HashFn, s: State, addr: string, key: string, value: string)
    requires RoutesInv(h, s) && addr in s.nodes
    ensures RoutesInv(h, DoPut(h, s, addr, key, value))
    ensures RoutesInv(h, WithVs(s, addr, HandleDelete(h, s.nodes[addr].vs, key).0))
  {
    hide RoutesInv, MyKey, ChunkOf;
    QuietRoutes(h, s, DoPut(h, s, addr, key, value), addr);
    QuietRoutes(h, s, WithVs(s, addr, HandleDelete(h, s.nodes[addr].vs, key).0), addr);
  }

  lemma DeliverRoutes(h: HashFn, s: State, id: nat, replyLost: bool)
    requires RoutesInv(h, s) && id in s.transfers && s.transfers[id].dest in s.nodes
    ensures RoutesInv(h, DoDeliver(h, s, id, replyLost))
  {
    hide RoutesInv, MyKey, ChunkOf;
    QuietRoutes(h, s, DoDeliver(h, s, id, replyLost), s.transfers[id].dest);
  }

  lemma TakeMarks(h: HashFn, vs: ServerState, addr: string, history: seq<Config>, key: string)
    requires ServerInv(h, vs, addr, history) && key in vs.queue
    ensures var (r, taken) := TakeKey(h, vs, key);
            && ServerInv(h, r, addr, history) && MarksGrow(vs.toMove, r.toMove) && r.toMove == vs.toMove
            && Marked(h, vs.toMove, key)
            && (taken.Some? ==> taken.value.0 == vs.toMove[ChunkOf(h, key)].0)
  {
    hide MarksInv, ChunkOf;
  }

  lemma DequeueRoutes(h: HashFn, s: State, addr: string, key: string, id: nat)
    requires RoutesInv(h, s) && addr in s.nodes && key in s.nodes[addr].vs.queue && id !in s.transfers
    ensures RoutesInv(h, DoDequeue(h, s, addr, key, id))
  {
    var s', vs := DoDequeue(h, s, addr, key, id), s.nodes[addr].vs;
    var rest := s'.(transfers := s.transfers);
    TakeMarks(h, vs, addr, s.history, key);
    hide ServerInv, MarksGrow, ChunkOf, TransferInv, TakeKey, Marked;
    ServerRoutes(h, s, rest, addr);
    if TakeKey(h, vs, key).1.Some? {
      NewTransfer(h, rest, s', id);
    } else {
      assert s' == rest;
    }
  }

  lemma NewTransfer(h: HashFn, s: State, s': State, id: nat)
    requires RoutesInv(h, s) && id in s'.transfers && s' == s.(transfers := s.transfers[id := s'.transfers[id]])
    requires var t := s'.transfers[id];
             && t.src in s.nodes && Marked(h, s.nodes[t.src].vs.toMove, t.key)
             && t.dest == s.nodes[t.src].vs.toMove[ChunkOf(h, t.key)].0
    ensures RoutesInv(h, s')
  {
    var t := s'.transfers[id];
    assert ServerInv(h, s.nodes[t.src].vs, t.src, s.history);
    assert TransferInv(h, s', t);
    hide ServerInv, OwnerSince, Marked, ChunkOf;
    forall i | i in s'.transfers ensures TransferInv(h, s', s'.transfers[i]) {
      assert i != id ==> TransferInv(h, s, s.transfers[i]);
    }
  }

  lemma FinishRoutes(h: HashFn, s: State, id: nat)
    requires RoutesInv(h, s) && id in s.transfers && s.transfers[id].src in s.nodes
    ensures RoutesInv(h, DoFinish(h, s, id))
  {
    var s', t := DoFinish(h, s, id), s.transfers[id];
    assert TransferInv(h, s, t) && ServerInv(h, s.nodes[t.src].vs, t.src, s.history);
    hide MarksInv, ChunkOf, RoutesInv, TransferInv, Marked;
    assert ServerInv(h, s'.nodes[t.src].vs, t.src, s.history);
    ServerRoutes(h, s, s', t.src);
  }

  lemma NextKeepsRoutes(h: HashFn, s: State, step: Step)
    requires Inv(h, s) && RoutesInv(h, s)
    ensures RoutesInv(h, Next(h, s, step))
  {
    hide Inv, RoutesInv, Legal, Registered, ChunksInRange, DoMaster, DoAskNum, DoAskConfig, DoAdopt, DoPut;
    hide HandleDelete, DoDequeue, DoDeliver, DoFinish, ClientAsks, ClientFetches;
    if !Enabled(h, s, step) {
      return;
    }
    match step
    case MasterRequest(req) => MasterRoutes(h, s, req);
    case StartServer(addr) =>
      MasterRoutes(h, s, Request.Join(addr));
      FreshRoutes(h, DoMaster(s, Request.Join(addr)), addr);
    case AskNum(addr) => PollRoutes(h, s, addr);
    case AskConfig(addr) => PollRoutes(h, s, addr);
    case AdoptConfig(addr) => AdoptRoutes(h, s, addr);
    case ClientPut(addr, key, value) => PutRoutes(h, s, addr, key, value);
    case ClientDelete(addr, key) => PutRoutes(h, s, addr, key, "");
    case Dequeue(addr, key, id) => DequeueRoutes(h, s, addr, key, id);
    case DeliverPut(id, replyLost) => DeliverRoutes(h, s, id, replyLost);
    case LosePut(id) => SameNodesRoutes(h, s, Apply(h, s, step));
    case FinishTransfer(id) => FinishRoutes(h, s, id);
    case NewClient(_) => SameNodesRoutes(h, s, Apply(h, s, step));
    case ClientAskNum(_) => SameNodesRoutes(h, s, Apply(h, s, step));
    case ClientAskConfig(_, _) => SameNodesRoutes(h, s, Apply(h, s, step));
  }

  lemma {:induction false} RoutesInEveryRun(h: HashFn, steps: seq<Step>)
    ensures RoutesInv(h, Exec(h, INIT, steps))
  {
    if steps != [] {
      InvInEveryRun(h, steps[..|steps| - 1]);
      RoutesInEveryRun(h, steps[..|steps| - 1]);
      NextKeepsRoutes(h, Exec(h, INIT, steps[..|steps| - 1]), steps[|steps| - 1]);
    }
  }

  /** Destinations: in every run each transfer goes to another server, one that some configuration of the master made
      the owner of the key's chunk. */
  lemma TransfersGoToOwners(h: HashFn, steps: seq<Step>, id: nat)
    requires id in Exec(h, INIT, steps).transfers
    ensures var s := Exec(h, INIT, steps);
            var t := s.transfers[id];
            && t.dest != t.src
            && exists m :: 0 <= m < |s.history| && Owner(s.history[m], ChunkOf(h, t.key)) == Some(t.dest)
  {
    RoutesInEveryRun(h, steps);
    var s := Exec(h, INIT, steps);
    assert TransferInv(h, s, s.transfers[id]);
  }
}
