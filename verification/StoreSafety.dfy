/** What every run of the store keeps: the master's partition, caches never older than their label, the
    secondary index, and the promise that a key stranded by a configuration change is not forgotten. */
module StoreSafety {
  import opened Common
  import opened Shards
  import opened ShardMasters
  import opened VolumeServers
  import opened Clients
  import opened Store

  ghost predicate MasterInv(s: State) {
    && GoodConfig(s.master.config) && |s.master.config| <= NUM_CHUNKS
    && |s.history| == s.master.num + 1
    && s.history[0] == [] && s.history[s.master.num] == s.master.config
    && forall i :: 0 <= i < |s.history| ==> GoodConfig(s.history[i])
  }

  /** The configuration was current at number num or later. */
  ghost predicate NotOlder(history: seq<Config>, num: nat, config: Config) {
    exists m :: num <= m < |history| && history[m] == config
  }

  ghost predicate VsInv(h: HashFn, vs: VS, addr: string, history: seq<Config>) {
    && vs.addr == addr
    && IndexAgrees(h, vs)
    && NotOlder(history, vs.configNum, vs.config)
    && (forall c: nat :: c <= NUM_CHUNKS ==> vs.toMove[c].1 <= vs.configNum)
    && ProperEntry(vs.myConfig)
    && (vs.myConfig.shards != [] ==> vs.myConfig.addr == addr)
    && (forall i :: 0 <= i < |vs.config| && vs.config[i].addr == addr ==> vs.myConfig == vs.config[i])
  }

  ghost predicate PollInv(poll: Poll, configNum: nat, history: seq<Config>) {
    match poll
    case Idle => true
    case GotNum(num) => configNum < num < |history|
    case GotConfig(num, config) => configNum < num && NotOlder(history, num, config)
  }

  /** Every stored key whose chunk is not the server's is queued or in flight. */
  ghost predicate NoneForgotten(h: HashFn, vs: VS, inFlight: set<string>) {
    forall k :: k in vs.db && !MyKey(h, vs, k) ==> k in vs.queue || k in inFlight
  }

  ghost predicate NodeInv(h: HashFn, node: Node, addr: string, history: seq<Config>, inFlight: set<string>) {
    && VsInv(h, node.vs, addr, history)
    && PollInv(node.poll, node.vs.configNum, history)
    && NoneForgotten(h, node.vs, inFlight)
  }

  /** The keys of the transfers that server a has running. */
  function InFlight(s: State, a: string): set<string> {
    set id | id in s.transfers && s.transfers[id].src == a :: s.transfers[id].key
  }

  ghost predicate NodesInv(h: HashFn, s: State) {
    forall a :: a in s.nodes ==> NodeInv(h, s.nodes[a], a, s.history, InFlight(s, a))
  }

  ghost predicate ClientInv(c: ClientState, history: seq<Config>) {
    && NotOlder(history, c.cache.num, c.cache.mappings)
    && (c.asked.Some? ==> c.cache.num < c.asked.value < |history|)
  }

  ghost predicate ClientsInv(s: State) {
    forall c :: c in s.clients ==> ClientInv(s.clients[c], s.history)
  }

  ghost predicate SourcesInv(s: State) {
    forall id :: id in s.transfers ==> s.transfers[id].src in s.nodes
  }

  ghost predicate Inv(h: HashFn, s: State) {
    MasterInv(s) && NodesInv(h, s) && ClientsInv(s) && SourcesInv(s)
  }

  // One server

  lemma NotOlderExtends(history: seq<Config>, config: Config, num: nat, cached: Config)
    requires NotOlder(history, num, cached)
    ensures NotOlder(history + [config], num, cached)
  {
    var m :| num <= m < |history| && history[m] == cached;
    assert (history + [config])[m] == cached;
  }

  lemma NodeExtends(h: HashFn, node: Node, addr: string, history: seq<Config>, config: Config, inFlight: set<string>)
    requires NodeInv(h, node, addr, history, inFlight)
    ensures NodeInv(h, node, addr, history + [config], inFlight)
  {
    NotOlderExtends(history, config, node.vs.configNum, node.vs.config);
    if node.poll.GotConfig? {
      NotOlderExtends(history, config, node.poll.num, node.poll.config);
    }
  }

  lemma NodeMono(h: HashFn, node: Node, addr: string, history: seq<Config>, fewer: set<string>, more: set<string>)
    requires NodeInv(h, node, addr, history, fewer) && fewer <= more
    ensures NodeInv(h, node, addr, history, more)
  {
  }

  lemma FreshKeeps(h: HashFn, addr: string, history: seq<Config>)
    requires history != [] && history[0] == []
    ensures NodeInv(h, Node(Fresh(addr), Idle), addr, history, {})
  {
    assert history[0] == Fresh(addr).config;
    assert IndexAgrees(h, Fresh(addr));
  }

  /** The heart of a poll: adopting a configuration from the master's history keeps every server invariant
      and queues each key it strands. */
  lemma AdoptKeeps(
    h: HashFn, vs: VS, addr: string, history: seq<Config>, num: nat, config: Config, inFlight: set<string>)
    requires VsInv(h, vs, addr, history) && NoneForgotten(h, vs, inFlight)
    requires vs.configNum < num && NotOlder(history, num, config) && GoodConfig(config)
    ensures ChunksInRange(Diff(config, vs.myConfig))
    ensures VsInv(h, Adopt(vs, num, config), addr, history)
    ensures NoneForgotten(h, Adopt(vs, num, config), inFlight)
  {
    var removed := Diff(config, vs.myConfig);
    DiffFacts(config, vs.myConfig);
    var mid := Refreshed(vs, num, config);
    assert IndexAgrees(h, mid);
    MarkMovesExact(h, mid, removed);
    MyEntryMeans(config, addr, vs.myConfig);
    AdoptedEntry(config, addr, vs.myConfig);
    var r := Adopt(vs, num, config);
    forall c: nat | c <= NUM_CHUNKS ensures r.toMove[c].1 <= num {
      if Mentions(removed, c) {
        var i :| 0 <= i < |removed| && removed[i].0 == c;
      }
    }
    forall k | k in r.db && !MyKey(h, r, k) ensures k in r.queue || k in inFlight {
      if MyKey(h, vs, k) {
        LostChunkListed(config, addr, vs.myConfig, ChunkOf(h, k));
      }
    }
  }

  lemma AdoptedEntry(config: Config, addr: string, prev: Entry)
    requires GoodConfig(config) && ProperEntry(prev) && (prev.shards != [] ==> prev.addr == addr)
    ensures var e := MyEntry(config, addr, prev);
            ProperEntry(e) && (e.shards != [] ==> e.addr == addr)
  {
    MyEntryMeans(config, addr, prev);
    if Registered(config, addr) {
      var i :| 0 <= i < |config| && config[i].addr == addr;
      PartitionEntriesProper(config, i);
    }
  }

  lemma LostChunkListed(config: Config, addr: string, prev: Entry, c: nat)
    requires GoodConfig(config) && ProperEntry(prev) && prev.addr == addr
    requires c <= NUM_CHUNKS && Covers(prev.shards, c) && !Covers(MyEntry(config, addr, prev).shards, c)
    ensures Mentions(Diff(config, prev), c)
  {
    MyEntryMeans(config, addr, prev);
    PartitionMeans(config);
    assert Owned(config, c);
    var e :| 0 <= e < |config| && Covers(config[e].shards, c);
    OwnerIsEntry(config, e, c);
    var d := config[e].addr;
    DiffMember(config, prev, c, d);
    var i :| 0 <= i < |Diff(config, prev)| && Diff(config, prev)[i] == (c, d);
    assert Diff(config, prev)[i].0 == c;
  }

  lemma PutKeeps(
    h: HashFn, node: Node, addr: string, history: seq<Config>, key: string, value: string, inFlight: set<string>)
    requires NodeInv(h, node, addr, history, inFlight)
    ensures NodeInv(h, node.(vs := HandlePut(h, node.vs, key, value).0), addr, history, inFlight)
  {
    StoredKeepsIndex(h, node.vs, key, value);
  }

  lemma DropKeeps(h: HashFn, node: Node, addr: string, history: seq<Config>, key: string, inFlight: set<string>)
    requires NodeInv(h, node, addr, history, inFlight + {key})
    ensures NodeInv(h, node.(vs := Dropped(h, node.vs, key)), addr, history, inFlight)
  {
    DroppedKeepsIndex(h, node.vs, key);
  }

  lemma DeleteKeeps(h: HashFn, node: Node, addr: string, history: seq<Config>, key: string, inFlight: set<string>)
    requires NodeInv(h, node, addr, history, inFlight)
    ensures NodeInv(h, node.(vs := HandleDelete(h, node.vs, key).0), addr, history, inFlight)
  {
    NodeMono(h, node, addr, history, inFlight, inFlight + {key});
    DropKeeps(h, node, addr, history, key, inFlight);
  }

  lemma TakeKeeps(h: HashFn, node: Node, addr: string, history: seq<Config>, key: string, inFlight: set<string>)
    requires NodeInv(h, node, addr, history, inFlight) && key in node.vs.queue
    ensures NodeInv(h, node.(vs := TakeKey(h, node.vs, key).0), addr, history,
                    if key in node.vs.db then inFlight + {key} else inFlight)
  {
    assert IndexAgrees(h, TakeKey(h, node.vs, key).0);
  }

  lemma EndKeeps(
    h: HashFn, node: Node, addr: string, history: seq<Config>, key: string, ok: bool, inFlight: set<string>)
    requires NodeInv(h, node, addr, history, inFlight + {key})
    ensures NodeInv(h, node.(vs := EndTransfer(h, node.vs, key, ok)), addr, history, inFlight)
  {
    if ok {
      DropKeeps(h, node, addr, history, key, inFlight);
    } else {
      assert IndexAgrees(h, EndTransfer(h, node.vs, key, ok));
    }
  }

  // Which transfers a step adds or removes

  lemma SameFlights(s: State, s': State)
    requires s'.transfers == s.transfers
    ensures forall a :: InFlight(s', a) == InFlight(s, a)
  {
    forall a ensures InFlight(s', a) == InFlight(s, a) {
    }
  }

  lemma MoreFlights(s: State, s': State, id: nat, t: Transfer)
    requires id !in s.transfers && s'.transfers == s.transfers[id := t]
    ensures forall a :: InFlight(s, a) <= InFlight(s', a)
    ensures t.key in InFlight(s', t.src)
  {
    forall a, k | k in InFlight(s, a) ensures k in InFlight(s', a) {
      var i :| i in s.transfers && s.transfers[i].src == a && s.transfers[i].key == k;
      assert i in s'.transfers && s'.transfers[i] == s.transfers[i];
    }
    assert s'.transfers[id] == t;
  }

  /** A transfer that changes phase keeps its source and key. */
  lemma PhaseFlights(s: State, s': State, id: nat, phase: Phase)
    requires id in s.transfers && s'.transfers == s.transfers[id := s.transfers[id].(phase := phase)]
    ensures forall a :: InFlight(s', a) == InFlight(s, a)
  {
    forall a ensures InFlight(s', a) == InFlight(s, a) {
      forall k | k in InFlight(s, a) ensures k in InFlight(s', a) {
        var i :| i in s.transfers && s.transfers[i].src == a && s.transfers[i].key == k;
        assert i in s'.transfers && s'.transfers[i].src == a && s'.transfers[i].key == k;
      }
      forall k | k in InFlight(s', a) ensures k in InFlight(s, a) {
        var i :| i in s'.transfers && s'.transfers[i].src == a && s'.transfers[i].key == k;
        assert i in s.transfers && s.transfers[i].src == a && s.transfers[i].key == k;
      }
    }
  }

  lemma FewerFlights(s: State, s': State, id: nat)
    requires id in s.transfers && s'.transfers == s.transfers - {id}
    ensures forall a :: a != s.transfers[id].src ==> InFlight(s, a) <= InFlight(s', a)
    ensures InFlight(s, s.transfers[id].src) <= InFlight(s', s.transfers[id].src) + {s.transfers[id].key}
  {
    var t := s.transfers[id];
    forall a, k | k in InFlight(s, a) && !(a == t.src && k == t.key) ensures k in InFlight(s', a) {
      var i :| i in s.transfers && s.transfers[i].src == a && s.transfers[i].key == k;
      assert i in s'.transfers && s'.transfers[i] == s.transfers[i];
    }
  }

  // One step

  lemma MasterStep(h: HashFn, s: State, req: Request)
    requires Inv(h, s) && Legal(s.master, req)
    ensures Inv(h, DoMaster(s, req))
  {
    hide NodeInv, ClientInv;
    var s' := DoMaster(s, req);
    HandleKeepsGood(s.master, req);
    SameFlights(s, s');
    if Handle(s.master, req).1 == ShardMasters.OK {
      forall a | a in s'.nodes ensures NodeInv(h, s'.nodes[a], a, s'.history, InFlight(s', a)) {
        NodeExtends(h, s.nodes[a], a, s.history, s'.master.config, InFlight(s, a));
      }
      forall c | c in s'.clients ensures ClientInv(s'.clients[c], s'.history) {
        ClientExtends(s.clients[c], s.history, s'.master.config);
      }
    }
  }

  lemma ClientExtends(c: ClientState, history: seq<Config>, config: Config)
    requires ClientInv(c, history)
    ensures ClientInv(c, history + [config])
  {
    NotOlderExtends(history, config, c.cache.num, c.cache.mappings);
  }

  /** Changing one server and the transfers keeps the invariant when that server keeps its own part and no
      other server loses a transfer. */
  lemma ServerChange(h: HashFn, s: State, s': State, addr: string)
    requires Inv(h, s) && addr in s'.nodes && s'.nodes == s.nodes[addr := s'.nodes[addr]]
    requires s'.master == s.master && s'.history == s.history && s'.clients == s.clients
    requires forall a :: a != addr ==> InFlight(s, a) <= InFlight(s', a)
    requires NodeInv(h, s'.nodes[addr], addr, s.history, InFlight(s', addr))
    requires forall id :: id in s'.transfers ==> s'.transfers[id].src in s'.nodes
    ensures Inv(h, s')
  {
    hide NodeInv, ClientInv, GoodConfig, InFlight;
    forall a | a in s'.nodes ensures NodeInv(h, s'.nodes[a], a, s'.history, InFlight(s', a)) {
      if a != addr {
        NodeMono(h, s.nodes[a], a, s.history, InFlight(s, a), InFlight(s', a));
      }
    }
  }

  lemma FreshServerStep(h: HashFn, s: State, addr: string)
    requires Inv(h, s) && addr !in s.nodes
    ensures Inv(h, s.(nodes := s.nodes[addr := Node(Fresh(addr), Idle)]))
  {
    hide NodeInv, ClientInv, GoodConfig, InFlight;
    var s' := s.(nodes := s.nodes[addr := Node(Fresh(addr), Idle)]);
    SameFlights(s, s');
    FreshKeeps(h, addr, s.history);
    NodeMono(h, Node(Fresh(addr), Idle), addr, s.history, {}, InFlight(s', addr));
    ServerChange(h, s, s', addr);
  }

  lemma PollKeeps(h: HashFn, node: Node, addr: string, s: State, inFlight: set<string>)
    requires MasterInv(s) && NodeInv(h, node, addr, s.history, inFlight)
    ensures node.vs.configNum < s.master.num ==>
              NodeInv(h, node.(poll := GotNum(s.master.num)), addr, s.history, inFlight)
    ensures node.poll.GotNum? ==>
              NodeInv(h, node.(poll := GotConfig(node.poll.num, s.master.config)), addr, s.history, inFlight)
  {
    assert s.history[s.master.num] == s.master.config;
  }

  lemma PollStep(h: HashFn, s: State, addr: string)
    requires Inv(h, s) && addr in s.nodes
    ensures s.nodes[addr].poll.Idle? ==> Inv(h, DoAskNum(s, addr))
    ensures s.nodes[addr].poll.GotNum? ==> Inv(h, DoAskConfig(s, addr))
  {
    hide NodeInv, ClientInv, MasterInv, InFlight;
    PollKeeps(h, s.nodes[addr], addr, s, InFlight(s, addr));
    if s.nodes[addr].poll.Idle? && s.nodes[addr].vs.configNum < s.master.num {
      SameFlights(s, DoAskNum(s, addr));
      ServerChange(h, s, DoAskNum(s, addr), addr);
    } else if s.nodes[addr].poll.GotNum? {
      SameFlights(s, DoAskConfig(s, addr));
      ServerChange(h, s, DoAskConfig(s, addr), addr);
    }
  }

  lemma AdoptNode(h: HashFn, node: Node, addr: string, s: State, inFlight: set<string>)
    requires MasterInv(s) && NodeInv(h, node, addr, s.history, inFlight) && node.poll.GotConfig?
    ensures ChunksInRange(Diff(node.poll.config, node.vs.myConfig))
    ensures NodeInv(h, Node(Adopt(node.vs, node.poll.num, node.poll.config), Idle), addr, s.history, inFlight)
  {
    var m :| node.poll.num <= m < |s.history| && s.history[m] == node.poll.config;
    AdoptKeeps(h, node.vs, addr, s.history, node.poll.num, node.poll.config, inFlight);
  }

  lemma AdoptStep(h: HashFn, s: State, addr: string)
    requires Inv(h, s) && addr in s.nodes && s.nodes[addr].poll.GotConfig?
    ensures ChunksInRange(Diff(s.nodes[addr].poll.config, s.nodes[addr].vs.myConfig))
    ensures Inv(h, DoAdopt(s, addr))
  {
    hide NodeInv, ClientInv, MasterInv, InFlight;
    AdoptNode(h, s.nodes[addr], addr, s, InFlight(s, addr));
    SameFlights(s, DoAdopt(s, addr));
    ServerChange(h, s, DoAdopt(s, addr), addr);
  }

  lemma PutStep(h: HashFn, s: State, addr: string, key: string, value: string)
    requires Inv(h, s) && addr in s.nodes
    ensures Inv(h, DoPut(h, s, addr, key, value))
  {
    hide NodeInv, ClientInv, MasterInv, InFlight, HandlePut;
    var s' := DoPut(h, s, addr, key, value);
    PutKeeps(h, s.nodes[addr], addr, s.history, key, value, InFlight(s, addr));
    SameFlights(s, s');
    ServerChange(h, s, s', addr);
  }

  lemma DeleteStep(h: HashFn, s: State, addr: string, key: string)
    requires Inv(h, s) && addr in s.nodes
    ensures Inv(h, WithVs(s, addr, HandleDelete(h, s.nodes[addr].vs, key).0))
  {
    hide NodeInv, ClientInv, MasterInv, InFlight;
    var s' := WithVs(s, addr, HandleDelete(h, s.nodes[addr].vs, key).0);
    DeleteKeeps(h, s.nodes[addr], addr, s.history, key, InFlight(s, addr));
    SameFlights(s, s');
    ServerChange(h, s, s', addr);
  }

  lemma DequeueStep(h: HashFn, s: State, addr: string, key: string, id: nat)
    requires Inv(h, s) && addr in s.nodes && key in s.nodes[addr].vs.queue && id !in s.transfers
    ensures Inv(h, DoDequeue(h, s, addr, key, id))
  {
    hide NodeInv, ClientInv, MasterInv, InFlight;
    var s', node := DoDequeue(h, s, addr, key, id), s.nodes[addr];
    TakeKeeps(h, node, addr, s.history, key, InFlight(s, addr));
    if key in node.vs.db {
      MoreFlights(s, s', id, s'.transfers[id]);
      NodeMono(h, s'.nodes[addr], addr, s.history, InFlight(s, addr) + {key}, InFlight(s', addr));
    } else {
      SameFlights(s, s');
    }
    ServerChange(h, s, s', addr);
  }

  lemma DeliverStep(h: HashFn, s: State, id: nat, replyLost: bool)
    requires Inv(h, s) && id in s.transfers && s.transfers[id].dest in s.nodes
    ensures Inv(h, DoDeliver(h, s, id, replyLost))
  {
    hide NodeInv, ClientInv, MasterInv, InFlight, HandlePut;
    var s', t := DoDeliver(h, s, id, replyLost), s.transfers[id];
    PutKeeps(h, s.nodes[t.dest], t.dest, s.history, t.key, t.value, InFlight(s, t.dest));
    PhaseFlights(s, s', id, s'.transfers[id].phase);
    ServerChange(h, s, s', t.dest);
  }

  lemma LoseStep(h: HashFn, s: State, id: nat)
    requires Inv(h, s) && id in s.transfers
    ensures Inv(h, s.(transfers := s.transfers[id := s.transfers[id].(phase := Failed)]))
  {
    hide NodeInv, ClientInv, MasterInv, InFlight;
    var s', src := s.(transfers := s.transfers[id := s.transfers[id].(phase := Failed)]), s.transfers[id].src;
    PhaseFlights(s, s', id, Failed);
    ServerChange(h, s, s', src);
  }

  lemma FinishStep(h: HashFn, s: State, id: nat)
    requires Inv(h, s) && id in s.transfers && s.transfers[id].src in s.nodes
    ensures Inv(h, DoFinish(h, s, id))
  {
    hide NodeInv, ClientInv, MasterInv, InFlight, EndTransfer;
    var s', t := DoFinish(h, s, id), s.transfers[id];
    FewerFlights(s, s', id);
    NodeMono(h, s.nodes[t.src], t.src, s.history, InFlight(s, t.src), InFlight(s', t.src) + {t.key});
    EndKeeps(h, s.nodes[t.src], t.src, s.history, t.key, t.phase == Accepted, InFlight(s', t.src));
    ServerChange(h, s, s', t.src);
  }

  lemma ClientChange(h: HashFn, s: State, client: nat, c: ClientState)
    requires Inv(h, s) && ClientInv(c, s.history)
    ensures Inv(h, WithClient(s, client, c))
  {
    hide NodeInv, ClientInv, GoodConfig, InFlight;
    SameFlights(s, WithClient(s, client, c));
  }

  lemma ClientMoves(s: State, c: ClientState, ok: bool)
    requires MasterInv(s)
    ensures ClientInv(ClientState(EMPTY, None), s.history)
    ensures ClientInv(c, s.history) ==>
              ClientInv(ClientAsks(s, c), s.history) && ClientInv(ClientFetches(s, c, ok), s.history)
  {
    assert s.history[0] == EMPTY.mappings;
    assert s.history[s.master.num] == s.master.config;
  }

  lemma ClientStep(h: HashFn, s: State, client: nat, ok: bool)
    requires Inv(h, s)
    ensures Inv(h, WithClient(s, client, ClientState(EMPTY, None)))
    ensures client in s.clients ==> Inv(h, WithClient(s, client, ClientAsks(s, s.clients[client])))
    ensures client in s.clients ==> Inv(h, WithClient(s, client, ClientFetches(s, s.clients[client], ok)))
  {
    hide NodeInv, ClientInv, GoodConfig, InFlight;
    if client in s.clients {
      ClientMoves(s, s.clients[client], ok);
      ClientChange(h, s, client, ClientAsks(s, s.clients[client]));
      ClientChange(h, s, client, ClientFetches(s, s.clients[client], ok));
    } else {
      ClientMoves(s, ClientState(EMPTY, None), ok);
    }
    ClientChange(h, s, client, ClientState(EMPTY, None));
  }

  lemma NextKeepsInv(h: HashFn, s: State, step: Step)
    requires Inv(h, s)
    ensures Inv(h, Next(h, s, step))
  {
    hide Inv;
    if Enabled(h, s, step) {
      match step
      case MasterRequest(req) => MasterStep(h, s, req);
      case StartServer(addr) =>
        MasterStep(h, s, Request.Join(addr));
        FreshServerStep(h, DoMaster(s, Request.Join(addr)), addr);
      case AskNum(addr) => PollStep(h, s, addr);
      case AskConfig(addr) => PollStep(h, s, addr);
      case AdoptConfig(addr) => AdoptStep(h, s, addr);
      case ClientPut(addr, key, value) => PutStep(h, s, addr, key, value);
      case ClientDelete(addr, key) => DeleteStep(h, s, addr, key);
      case Dequeue(addr, key, id) => DequeueStep(h, s, addr, key, id);
      case DeliverPut(id, replyLost) => DeliverStep(h, s, id, replyLost);
      case LosePut(id) => LoseStep(h, s, id);
      case FinishTransfer(id) => FinishStep(h, s, id);
      case NewClient(client) => ClientStep(h, s, client, true);
      case ClientAskNum(client) => ClientStep(h, s, client, true);
      case ClientAskConfig(client, ok) => ClientStep(h, s, client, ok);
    }
  }

  // Every run

  lemma {:induction false} InvInEveryRun(h: HashFn, steps: seq<Step>)
    ensures Inv(h, Exec(h, INIT, steps))
  {
    if steps == [] {
      assert INIT.history[0] == [];
    } else {
      InvInEveryRun(h, steps[..|steps| - 1]);
      NextKeepsInv(h, Exec(h, INIT, steps[..|steps| - 1]), steps[|steps| - 1]);
    }
  }

  /** In every run the secondary index of every server lists exactly its stored keys, by chunk. */
  lemma IndexAgreesInEveryRun(h: HashFn, steps: seq<Step>, a: string)
    requires a in Exec(h, INIT, steps).nodes
    ensures IndexAgrees(h, Exec(h, INIT, steps).nodes[a].vs)
  {
    InvInEveryRun(h, steps);
  }

  /** In every run a stored key whose chunk its server does not own is queued or in a running transfer. */
  lemma NoStrandedKeyForgotten(h: HashFn, steps: seq<Step>, a: string, k: string)
    requires a in Exec(h, INIT, steps).nodes
    requires k in Exec(h, INIT, steps).nodes[a].vs.db && !MyKey(h, Exec(h, INIT, steps).nodes[a].vs, k)
    ensures var s := Exec(h, INIT, steps);
            || k in s.nodes[a].vs.queue
            || exists id :: id in s.transfers && s.transfers[id].src == a && s.transfers[id].key == k
  {
    InvInEveryRun(h, steps);
    var s := Exec(h, INIT, steps);
    assert NodeInv(h, s.nodes[a], a, s.history, InFlight(s, a));
  }

  /** In every run, adopting a fetched configuration never indexes past chunk 1000: once both replies are
      in, the step is enabled. */
  lemma AdoptNeverOutOfRange(h: HashFn, steps: seq<Step>, a: string)
    requires a in Exec(h, INIT, steps).nodes && Exec(h, INIT, steps).nodes[a].poll.GotConfig?
    ensures Enabled(h, Exec(h, INIT, steps), AdoptConfig(a))
  {
    InvInEveryRun(h, steps);
    AdoptStep(h, Exec(h, INIT, steps), a);
  }

  /** A cached configuration was current at its label or later, and a cache at the master's number holds
      exactly the master's configuration. */
  ghost predicate CachesCorrect(s: State) {
    && (forall a :: a in s.nodes ==> Current(s, s.nodes[a].vs.configNum, s.nodes[a].vs.config))
    && (forall c :: c in s.clients ==> Current(s, s.clients[c].cache.num, s.clients[c].cache.mappings))
  }

  ghost predicate Current(s: State, num: nat, config: Config) {
    && NotOlder(s.history, num, config)
    && (num == s.master.num ==> config == s.master.config)
  }

  /** Versioned caches, however master updates fall between the two calls. A client whose second call
      failed is back at label 0 with the empty configuration, which satisfies the same statement. */
  lemma CachesCorrectInEveryRun(h: HashFn, steps: seq<Step>)
    ensures CachesCorrect(Exec(h, INIT, steps))
  {
    InvInEveryRun(h, steps);
    var s := Exec(h, INIT, steps);
    forall num: nat, config | NotOlder(s.history, num, config) ensures Current(s, num, config) {
    }
    forall a | a in s.nodes ensures Current(s, s.nodes[a].vs.configNum, s.nodes[a].vs.config) {
      assert NodeInv(h, s.nodes[a], a, s.history, InFlight(s, a));
    }
    forall c | c in s.clients ensures Current(s, s.clients[c].cache.num, s.clients[c].cache.mappings) {
      assert ClientInv(s.clients[c], s.history);
    }
  }

  /** Every registered address has a running server that has caught up with the master. */
  ghost predicate CaughtUp(s: State) {
    forall i :: 0 <= i < |s.master.config| ==>
      s.master.config[i].addr in s.nodes && s.nodes[s.master.config[i].addr].vs.configNum == s.master.num
  }

  /** Exactly the registered server `owner` accepts the key. */
  ghost predicate OnlyAcceptor(h: HashFn, s: State, key: string, owner: string)
    requires CaughtUp(s)
  {
    && Registered(s.master.config, owner)
    && forall i :: 0 <= i < |s.master.config| ==>
         (MyKey(h, s.nodes[s.master.config[i].addr].vs, key) <==> s.master.config[i].addr == owner)
  }

  /** Unique routing: with the client and all registered servers at the master's number, exactly one
      registered server accepts a key, and it is the one the client contacts. */
  lemma UniqueRouting(h: HashFn, steps: seq<Step>, client: nat, key: string)
    requires var s := Exec(h, INIT, steps);
             CaughtUp(s) && s.master.config != [] && client in s.clients && s.clients[client].cache.num == s.master.num
    ensures var s := Exec(h, INIT, steps);
            var owner := Owner(s.clients[client].cache.mappings, ChunkOf(h, key));
            owner.Some? && OnlyAcceptor(h, s, key, owner.value)
  {
    InvInEveryRun(h, steps);
    CachesCorrectInEveryRun(h, steps);
    var s := Exec(h, INIT, steps);
    assert Current(s, s.clients[client].cache.num, s.clients[client].cache.mappings);
    RoutingAt(h, s, key);
  }

  lemma RoutingAt(h: HashFn, s: State, key: string)
    requires Inv(h, s) && CachesCorrect(s) && CaughtUp(s) && s.master.config != []
    ensures var owner := Owner(s.master.config, ChunkOf(h, key));
            owner.Some? && OnlyAcceptor(h, s, key, owner.value)
  {
    hide NodeInv, GoodConfig, InFlight;
    var config, c := s.master.config, ChunkOf(h, key);
    forall i | 0 <= i < |config| ensures s.nodes[config[i].addr].vs.myConfig == config[i] {
      OwnEntry(h, s, i);
    }
    OneEntry(config, c);
    var e :| 0 <= e < |config| && Owner(config, c) == Some(config[e].addr)
          && forall i :: 0 <= i < |config| ==> (Covers(config[i].shards, c) <==> config[i].addr == config[e].addr);
  }

  lemma OwnEntry(h: HashFn, s: State, i: nat)
    requires Inv(h, s) && CachesCorrect(s) && CaughtUp(s) && i < |s.master.config|
    ensures s.nodes[s.master.config[i].addr].vs.myConfig == s.master.config[i]
  {
    hide GoodConfig, IndexAgrees, ProperEntry;
    var a := s.master.config[i].addr;
    assert NodeInv(h, s.nodes[a], a, s.history, InFlight(s, a));
    assert Current(s, s.nodes[a].vs.configNum, s.nodes[a].vs.config);
  }

  lemma OneEntry(config: Config, c: nat)
    requires GoodConfig(config) && config != [] && c <= NUM_CHUNKS
    ensures exists e :: 0 <= e < |config| && Owner(config, c) == Some(config[e].addr)
              && forall i :: 0 <= i < |config| ==> (Covers(config[i].shards, c) <==> config[i].addr == config[e].addr)
  {
    PartitionMeans(config);
    assert Owned(config, c);
    var e :| 0 <= e < |config| && Covers(config[e].shards, c);
    OwnerIsEntry(config, e, c);
  }

  // Departed servers

  predicate Joins(step: Step, addr: string) {
    step == MasterRequest(Request.Join(addr)) || step == StartServer(addr)
  }

  /** The master changes only by its own handlers. */
  lemma MasterNext(h: HashFn, s: State, step: Step, addr: string)
    requires DistinctAddrs(s.master.config) && !Registered(s.master.config, addr) && !Joins(step, addr)
    ensures !Registered(Next(h, s, step).master.config, addr)
  {
    hide Handle, Adopt, HandlePut, HandleDelete, TakeKey, EndTransfer, Registered, Legal, ChunksInRange, Refresh;
    if step.MasterRequest? {
      HandleRegisters(s.master, step.req, addr);
    } else if step.StartServer? {
      HandleRegisters(s.master, Request.Join(step.addr), addr);
    }
  }

  lemma {:induction false} AbsentUntilJoin(h: HashFn, s: State, steps: seq<Step>, addr: string)
    requires Inv(h, s) && !Registered(s.master.config, addr)
    requires forall i :: 0 <= i < |steps| ==> !Joins(steps[i], addr)
    ensures Inv(h, Exec(h, s, steps)) && !Registered(Exec(h, s, steps).master.config, addr)
  {
    hide Next, NodesInv, ClientsInv, Registered;
    if steps != [] {
      var init, last := steps[..|steps| - 1], steps[|steps| - 1];
      AbsentUntilJoin(h, s, init, addr);
      NextKeepsInv(h, Exec(h, s, init), last);
      MasterNext(h, Exec(h, s, init), last, addr);
    }
  }

  lemma LeaveUnregisters(h: HashFn, s: State, addr: string)
    requires Inv(h, s)
    ensures var s' := Next(h, s, MasterRequest(Request.Leave(addr)));
            Inv(h, s') && !Registered(s'.master.config, addr)
  {
    NextKeepsInv(h, s, MasterRequest(Request.Leave(addr)));
    HandleRegisters(s.master, Request.Leave(addr), addr);
    hide NodesInv, ClientsInv, Handle, Registered;
  }

  lemma UnregisteredUnrouted(h: HashFn, s: State, client: nat, c: nat, addr: string)
    requires Inv(h, s) && client in s.clients && s.clients[client].cache.num == s.master.num
    requires !Registered(s.master.config, addr)
    ensures Owner(s.clients[client].cache.mappings, c) != Some(addr)
  {
    hide NodesInv, GoodConfig, Owner, Registered;
    assert ClientInv(s.clients[client], s.history);
    OwnerRegistered(s.master.config, c);
  }

  /** After a server has left and until it joins again, no client that has caught up contacts it, for any key. */
  lemma DepartedNeverContacted(
    h: HashFn, before: seq<Step>, addr: string, after: seq<Step>, client: nat, key: string)
    requires forall i :: 0 <= i < |after| ==> !Joins(after[i], addr)
    requires var s := Exec(h, Next(h, Exec(h, INIT, before), MasterRequest(Request.Leave(addr))), after);
             client in s.clients && s.clients[client].cache.num == s.master.num
    ensures var s := Exec(h, Next(h, Exec(h, INIT, before), MasterRequest(Request.Leave(addr))), after);
            Owner(s.clients[client].cache.mappings, ChunkOf(h, key)) != Some(addr)
  {
    hide Exec, Next, Inv;
    var s := Exec(h, INIT, before);
    InvInEveryRun(h, before);
    LeaveUnregisters(h, s, addr);
    var left := Next(h, s, MasterRequest(Request.Leave(addr)));
    AbsentUntilJoin(h, left, after, addr);
    UnregisteredUnrouted(h, Exec(h, left, after), client, ChunkOf(h, key), addr);
  }
}
