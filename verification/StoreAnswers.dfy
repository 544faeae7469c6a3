/** What operations achieve, from every reachable state and whatever happens between their parts: a query brings a
    cache up to date, a poll brings a server up to date, a transfer moves its key, a routed Put can be read back. */
module StoreAnswers {
  import opened Common
  import opened Shards
  import opened ShardMasters
  import opened VolumeServers
  import opened Clients
  import opened Store
  import opened StoreSafety
  import opened StoreMigration

  // Clients

  /** Nobody answers the client's second call. */
  predicate LeavesClient(steps: seq<Step>, client: nat) {
    forall i :: 0 <= i < |steps| ==> !(steps[i].ClientAskConfig? && steps[i].client == client)
  }

  lemma ClientKept(h: HashFn, s: State, step: Step, client: nat)
    requires client in s.clients && s.clients[client].asked.Some?
    requires !(step.ClientAskConfig? && step.client == client)
    ensures client in Next(h, s, step).clients && Next(h, s, step).clients[client] == s.clients[client]
  {
    hide Handle, Legal, Registered, ChunksInRange, Adopt, HandlePut, HandleDelete, TakeKey, EndTransfer, Refresh;
  }

  lemma {:induction false} ClientWaits(h: HashFn, s: State, steps: seq<Step>, client: nat)
    requires client in s.clients && s.clients[client].asked.Some? && LeavesClient(steps, client)
    ensures client in Exec(h, s, steps).clients && Exec(h, s, steps).clients[client] == s.clients[client]
  {
    hide Next;
    if steps != [] {
      ClientWaits(h, s, steps[..|steps| - 1], client);
      ClientKept(h, Exec(h, s, steps[..|steps| - 1]), steps[|steps| - 1], client);
    }
  }

  /** A query of a client that is behind: whatever happens between its two calls, the label is the number of the first
      and the mappings are the master's configuration at the second; if the second fails, the cache is reset. */
  lemma QueryRefreshes(h: HashFn, s: State, client: nat, between: seq<Step>, ok: bool)
    requires client in s.clients && s.clients[client].asked.None? && s.clients[client].cache.num < s.master.num
    requires LeavesClient(between, client)
    ensures var s2 := Exec(h, Next(h, s, ClientAskNum(client)), between);
            var s3 := Next(h, s2, ClientAskConfig(client, ok));
            && client in s3.clients && s3.clients[client].asked == None
            && s3.clients[client].cache.num == (if ok then s.master.num else 0)
            && s3.clients[client].cache.mappings == if ok then s2.master.config else []
  {
    var s1 := Next(h, s, ClientAskNum(client));
    assert s1.clients[client].asked == Some(s.master.num);
    ClientWaits(h, s1, between, client);
    hide Exec;
  }

  /** A client that is not behind is at the master's number with the master's configuration. */
  lemma UpToDate(h: HashFn, s: State, client: nat)
    requires Inv(h, s) && client in s.clients && s.master.num <= s.clients[client].cache.num
    ensures s.clients[client].cache.num == s.master.num && s.clients[client].cache.mappings == s.master.config
  {
    hide NodesInv, GoodConfig;
    assert ClientInv(s.clients[client], s.history);
  }

  /** A query of such a client changes nothing. */
  lemma QueryIdle(h: HashFn, s: State, client: nat, ok: bool)
    requires client in s.clients && s.clients[client].asked.None? && s.master.num <= s.clients[client].cache.num
    ensures Next(h, s, ClientAskNum(client)) == s && Next(h, s, ClientAskConfig(client, ok)) == s
  {
    assert s.clients[client := s.clients[client]] == s.clients;
  }

  /** From every reachable state, a query without failure leaves the client with the master's number and
      configuration. */
  lemma QueryCatchesUp(h: HashFn, steps: seq<Step>, client: nat)
    requires var s := Exec(h, INIT, steps); client in s.clients && s.clients[client].asked.None?
    ensures var s := Exec(h, INIT, steps);
            var s' := Next(h, Next(h, s, ClientAskNum(client)), ClientAskConfig(client, true));
            && client in s'.clients && s'.clients[client].asked == None
            && s'.clients[client].cache.num == s.master.num
            && s'.clients[client].cache.mappings == s.master.config
  {
    var s := Exec(h, INIT, steps);
    InvInEveryRun(h, steps);
    NoSteps(h, Next(h, s, ClientAskNum(client)));
    AskingLeavesMaster(h, s, client);
    hide Exec, Next, Inv;
    if s.clients[client].cache.num < s.master.num {
      QueryRefreshes(h, s, client, [], true);
    } else {
      UpToDate(h, s, client);
      QueryIdle(h, s, client, true);
    }
  }

  lemma NoSteps(h: HashFn, s: State)
    ensures Exec(h, s, []) == s
  {
  }

  lemma AskingLeavesMaster(h: HashFn, s: State, client: nat)
    ensures Next(h, s, ClientAskNum(client)).master == s.master
  {
  }

  // Servers

  predicate LeavesPoll(steps: seq<Step>, addr: string) {
    forall i :: 0 <= i < |steps| ==> steps[i] != AskConfig(addr) && steps[i] != AdoptConfig(addr)
  }

  lemma PollKept(h: HashFn, s: State, step: Step, addr: string)
    requires addr in s.nodes && !s.nodes[addr].poll.Idle? && step != AskConfig(addr) && step != AdoptConfig(addr)
    ensures addr in Next(h, s, step).nodes && Next(h, s, step).nodes[addr].poll == s.nodes[addr].poll
  {
    hide Handle, Legal, Registered, ChunksInRange, Adopt, HandlePut, HandleDelete, TakeKey, EndTransfer, Refresh;
  }

  lemma {:induction false} PollWaits(h: HashFn, s: State, steps: seq<Step>, addr: string)
    requires addr in s.nodes && !s.nodes[addr].poll.Idle? && LeavesPoll(steps, addr)
    ensures addr in Exec(h, s, steps).nodes && Exec(h, s, steps).nodes[addr].poll == s.nodes[addr].poll
  {
    hide Next;
    if steps != [] {
      PollWaits(h, s, steps[..|steps| - 1], addr);
      PollKept(h, Exec(h, s, steps[..|steps| - 1]), steps[|steps| - 1], addr);
    }
  }

  lemma {:induction false} InvFrom(h: HashFn, s: State, steps: seq<Step>)
    requires Inv(h, s)
    ensures Inv(h, Exec(h, s, steps))
  {
    hide Inv, Next;
    if steps != [] {
      InvFrom(h, s, steps[..|steps| - 1]);
      NextKeepsInv(h, Exec(h, s, steps[..|steps| - 1]), steps[|steps| - 1]);
    }
  }

  lemma AdoptAnswers(h: HashFn, s: State, addr: string, num: nat, config: Config)
    requires Inv(h, s) && addr in s.nodes && s.nodes[addr].poll == GotConfig(num, config)
    ensures var s' := Next(h, s, AdoptConfig(addr));
            && addr in s'.nodes && s'.nodes[addr].poll == Idle
            && s'.nodes[addr].vs.configNum == num && s'.nodes[addr].vs.config == config
            && s'.nodes[addr].vs.myConfig == MyEntry(config, s.nodes[addr].vs.addr, s.nodes[addr].vs.myConfig)
  {
    AdoptStep(h, s, addr);
    hide Inv, Diff, ChunksInRange, MyEntry;
  }

  /** A poll of a server that is behind: whatever happens between its three parts, the server ends at the number of
      the first call with the master's configuration at the second. */
  lemma PollRefreshes(h: HashFn, s: State, addr: string, first: seq<Step>, second: seq<Step>)
    requires Inv(h, s) && addr in s.nodes && s.nodes[addr].poll.Idle? && s.nodes[addr].vs.configNum < s.master.num
    requires LeavesPoll(first, addr) && LeavesPoll(second, addr)
    ensures var s2 := Exec(h, Next(h, s, AskNum(addr)), first);
            var s4 := Exec(h, Next(h, s2, AskConfig(addr)), second);
            var s5 := Next(h, s4, AdoptConfig(addr));
            && addr in s5.nodes && s5.nodes[addr].poll == Idle
            && s5.nodes[addr].vs.configNum == s.master.num && s5.nodes[addr].vs.config == s2.master.config
  {
    hide Inv, Exec, ChunksInRange, Adopt;
    var s1 := Next(h, s, AskNum(addr));
    assert s1.nodes[addr].poll == GotNum(s.master.num);
    NextKeepsInv(h, s, AskNum(addr));
    PollWaits(h, s1, first, addr);
    InvFrom(h, s1, first);
    var s2 := Exec(h, s1, first);
    var s3 := Next(h, s2, AskConfig(addr));
    assert s3.nodes[addr].poll == GotConfig(s.master.num, s2.master.config);
    NextKeepsInv(h, s2, AskConfig(addr));
    PollWaits(h, s3, second, addr);
    InvFrom(h, s3, second);
    AdoptAnswers(h, Exec(h, s3, second), addr, s.master.num, s2.master.config);
  }

  /** From every reachable state, an undisturbed poll leaves the server with the master's number and configuration. */
  lemma PollCatchesUp(h: HashFn, steps: seq<Step>, addr: string)
    requires var s := Exec(h, INIT, steps); addr in s.nodes && s.nodes[addr].poll.Idle?
    ensures var s := Exec(h, INIT, steps);
            var s' := Next(h, Next(h, Next(h, s, AskNum(addr)), AskConfig(addr)), AdoptConfig(addr));
            && addr in s'.nodes && s'.nodes[addr].poll == Idle
            && s'.nodes[addr].vs.configNum == s.master.num && s'.nodes[addr].vs.config == s.master.config
  {
    var s := Exec(h, INIT, steps);
    InvInEveryRun(h, steps);
    if s.nodes[addr].vs.configNum < s.master.num {
      PollRefreshes(h, s, addr, [], []);
      assert Exec(h, Next(h, s, AskNum(addr)), []) == Next(h, s, AskNum(addr));
      var s3 := Next(h, Next(h, s, AskNum(addr)), AskConfig(addr));
      assert Exec(h, s3, []) == s3;
      assert Next(h, s, AskNum(addr)).master == s.master;
    } else {
      CachesCorrectInEveryRun(h, steps);
      hide Exec, NodeInv, ClientsInv, GoodConfig;
      assert Current(s, s.nodes[addr].vs.configNum, s.nodes[addr].vs.config);
    }
    hide Exec, Inv, CachesCorrect, Adopt, ChunksInRange;
  }

  /** A server that starts is registered, empty and at number 0. */
  lemma ServerStarts(h: HashFn, s: State, addr: string)
    requires Inv(h, s) && Enabled(h, s, StartServer(addr))
    ensures var s' := Next(h, s, StartServer(addr));
            && Registered(s'.master.config, addr) && s'.master.num == s.master.num + 1
            && addr in s'.nodes && s'.nodes[addr].vs.db == map[] && s'.nodes[addr].vs.configNum == 0
            && forall a :: a in s.nodes ==> a in s'.nodes && s'.nodes[a] == s.nodes[a]
  {
    HandleRegisters(s.master, Request.Join(addr), addr);
    HandleKeepsGood(s.master, Request.Join(addr));
    hide NodesInv, ClientsInv, Registered, GoodConfig;
  }

  // Transfers

  /** The steps of one transfer with nothing in between. */
  function Transferred(h: HashFn, s: State, a: string, k: string, id: nat, replyLost: bool): State {
    Next(h, Next(h, Next(h, s, Dequeue(a, k, id)), DeliverPut(id, replyLost)), FinishTransfer(id))
  }

  predicate CanStart(s: State, a: string, k: string, id: nat) {
    a in s.nodes && k in s.nodes[a].vs.queue && k in s.nodes[a].vs.db && id !in s.transfers
  }

  lemma TransferStarts(h: HashFn, s: State, a: string, k: string, id: nat)
    requires CanStart(s, a, k, id)
    ensures var vs := s.nodes[a].vs;
            var t := Transfer(a, vs.toMove[ChunkOf(h, k)].0, k, vs.db[k], Sent);
            Next(h, s, Dequeue(a, k, id))
            == WithVs(s, a, vs.(queue := vs.queue - multiset{k})).(transfers := s.transfers[id := t])
  {
    hide ChunkOf;
  }

  lemma DeliverAnswers(h: HashFn, s: State, id: nat, replyLost: bool)
    requires id in s.transfers && s.transfers[id].phase == Sent && s.transfers[id].dest in s.nodes
    ensures var t := s.transfers[id];
            var vs := s.nodes[t.dest].vs;
            Next(h, s, DeliverPut(id, replyLost))
            == if MyKey(h, vs, t.key) && t.key !in vs.db
               then WithVs(s, t.dest, Stored(h, vs, t.key, t.value)).(
                      transfers := s.transfers[id := t.(phase := if replyLost then Unheard else Accepted)])
               else s.(transfers := s.transfers[id := t.(phase := Failed)])
  {
    hide MyKey, ChunkOf, Stored;
    var t := s.transfers[id];
    assert s.nodes[t.dest := s.nodes[t.dest]] == s.nodes;
  }

  lemma FinishAnswers(h: HashFn, s: State, id: nat)
    requires id in s.transfers && s.transfers[id].phase != Sent && s.transfers[id].src in s.nodes
    ensures var t := s.transfers[id];
            var vs := s.nodes[t.src].vs;
            Next(h, s, FinishTransfer(id))
            == WithVs(s, t.src, if t.phase == Accepted then Dropped(h, vs, t.key)
                                else vs.(queue := vs.queue + multiset{t.key})).(transfers := s.transfers - {id})
  {
    hide ChunkOf, Dropped;
  }

  /** From every reachable state in which server a has a key queued and stored, and the recorded destination b runs,
      owns the key's chunk and lacks the key: one transfer moves the key to b with its value, takes it off a and
      once off a's queue, and changes nothing else anywhere. */
  lemma TransferMovesKey(h: HashFn, steps: seq<Step>, a: string, k: string, id: nat)
    requires var s := Exec(h, INIT, steps);
             && CanStart(s, a, k, id)
             && (var b := s.nodes[a].vs.toMove[ChunkOf(h, k)].0;
                 b in s.nodes && MyKey(h, s.nodes[b].vs, k) && k !in s.nodes[b].vs.db)
    ensures var s := Exec(h, INIT, steps);
            var (s', b) := (Transferred(h, s, a, k, id, false), s.nodes[a].vs.toMove[ChunkOf(h, k)].0);
            && b != a && s'.transfers == s.transfers && s'.nodes.Keys == s.nodes.Keys
            && s'.nodes[b].vs.db == s.nodes[b].vs.db[k := s.nodes[a].vs.db[k]]
            && s'.nodes[a].vs.db == s.nodes[a].vs.db - {k}
            && s'.nodes[a].vs.queue == s.nodes[a].vs.queue - multiset{k}
            && s'.nodes[b].vs.queue == s.nodes[b].vs.queue
            && forall c :: c in s.nodes && c != a && c != b ==> s'.nodes[c] == s.nodes[c]
  {
    RoutesInEveryRun(h, steps);
    var s := Exec(h, INIT, steps);
    var b := s.nodes[a].vs.toMove[ChunkOf(h, k)].0;
    OtherServer(h, s, a, k);
    hide Exec, RoutesInv;
    MoveBetween(h, s, a, b, k, id);
  }

  lemma OtherServer(h: HashFn, s: State, a: string, k: string)
    requires RoutesInv(h, s) && a in s.nodes && k in s.nodes[a].vs.queue
    ensures s.nodes[a].vs.toMove[ChunkOf(h, k)].0 != a
  {
    assert ServerInv(h, s.nodes[a].vs, a, s.history);
    assert Marked(h, s.nodes[a].vs.toMove, k);
  }

  lemma MoveBetween(h: HashFn, s: State, a: string, b: string, k: string, id: nat)
    requires CanStart(s, a, k, id) && b == s.nodes[a].vs.toMove[ChunkOf(h, k)].0 && b != a
    requires b in s.nodes && MyKey(h, s.nodes[b].vs, k) && k !in s.nodes[b].vs.db
    ensures var s' := Transferred(h, s, a, k, id, false);
            && s'.transfers == s.transfers && s'.nodes.Keys == s.nodes.Keys
            && s'.nodes[b].vs.db == s.nodes[b].vs.db[k := s.nodes[a].vs.db[k]]
            && s'.nodes[a].vs.db == s.nodes[a].vs.db - {k}
            && s'.nodes[a].vs.queue == s.nodes[a].vs.queue - multiset{k}
            && s'.nodes[b].vs.queue == s.nodes[b].vs.queue
            && forall c :: c in s.nodes && c != a && c != b ==> s'.nodes[c] == s.nodes[c]
  {
    hide Next, MyKey, ChunkOf;
    var va := s.nodes[a].vs;
    var s1 := Next(h, s, Dequeue(a, k, id));
    TransferStarts(h, s, a, k, id);
    DeliverAnswers(h, s1, id, false);
    var s2 := Next(h, s1, DeliverPut(id, false));
    assert s2.transfers[id] == Transfer(a, b, k, va.db[k], Accepted);
    FinishAnswers(h, s2, id);
    assert s2.transfers - {id} == s.transfers;
  }

  /** From every reachable state: if the destination refuses the key, one transfer leaves everything as it was. */
  lemma TransferRefused(h: HashFn, steps: seq<Step>, a: string, k: string, id: nat, replyLost: bool)
    requires var s := Exec(h, INIT, steps);
             && CanStart(s, a, k, id)
             && (var b := s.nodes[a].vs.toMove[ChunkOf(h, k)].0;
                 b in s.nodes && (!MyKey(h, s.nodes[b].vs, k) || k in s.nodes[b].vs.db))
    ensures Transferred(h, Exec(h, INIT, steps), a, k, id, replyLost) == Exec(h, INIT, steps)
  {
    RoutesInEveryRun(h, steps);
    OtherServer(h, Exec(h, INIT, steps), a, k);
    hide Exec, RoutesInv, Transferred;
    RefusedBetween(h, Exec(h, INIT, steps), a, k, id, replyLost);
  }

  lemma RefusedBetween(h: HashFn, s: State, a: string, k: string, id: nat, replyLost: bool)
    requires CanStart(s, a, k, id)
    requires var b := s.nodes[a].vs.toMove[ChunkOf(h, k)].0;
             b != a && b in s.nodes && (!MyKey(h, s.nodes[b].vs, k) || k in s.nodes[b].vs.db)
    ensures Transferred(h, s, a, k, id, replyLost) == s
  {
    hide Next, MyKey, ChunkOf;
    var va := s.nodes[a].vs;
    var s1 := Next(h, s, Dequeue(a, k, id));
    TransferStarts(h, s, a, k, id);
    DeliverAnswers(h, s1, id, replyLost);
    var s2 := Next(h, s1, DeliverPut(id, replyLost));
    assert s2.transfers[id].phase == Failed && s2.nodes == s1.nodes;
    FinishAnswers(h, s2, id);
    assert s2.transfers - {id} == s.transfers;
    assert va.queue - multiset{k} + multiset{k} == va.queue;
    var s3 := Next(h, s2, FinishTransfer(id));
    assert s3.nodes[a] == s.nodes[a];
    assert s3.nodes == s.nodes;
  }

  /** If the Put never arrives, one transfer leaves everything as it was. */
  lemma TransferLost(h: HashFn, s: State, a: string, k: string, id: nat)
    requires CanStart(s, a, k, id)
    ensures Next(h, Next(h, Next(h, s, Dequeue(a, k, id)), LosePut(id)), FinishTransfer(id)) == s
  {
    var va := s.nodes[a].vs;
    TransferStarts(h, s, a, k, id);
    var s1 := Next(h, s, Dequeue(a, k, id));
    var s2 := Next(h, s1, LosePut(id));
    assert s2 == s1.(transfers := s1.transfers[id := s1.transfers[id].(phase := Failed)]);
    FinishAnswers(h, s2, id);
    hide Next, ChunkOf;
    assert s2.transfers - {id} == s.transfers;
    assert va.queue - multiset{k} + multiset{k} == va.queue;
    var s3 := Next(h, s2, FinishTransfer(id));
    assert s3.nodes[a] == s.nodes[a];
    assert s3.nodes == s.nodes;
  }

  // Routed requests

  /** With client and servers caught up, a Put sent where the client routes it is not refused as misdirected: the key
      is then stored there, with this value or the one it had; and a Delete sent there removes it. */
  lemma RoutedRequestsWork(h: HashFn, steps: seq<Step>, client: nat, key: string, value: string)
    requires var s := Exec(h, INIT, steps);
             CaughtUp(s) && s.master.config != [] && client in s.clients && s.clients[client].cache.num == s.master.num
    ensures var s := Exec(h, INIT, steps);
            var owner := Owner(s.clients[client].cache.mappings, ChunkOf(h, key));
            && owner.Some? && owner.value in s.nodes
            && (var (a, db) := (owner.value, s.nodes[owner.value].vs.db);
                var (put, deleted) := (Next(h, s, ClientPut(a, key, value)), Next(h, s, ClientDelete(a, key)));
                && a in put.nodes && a in deleted.nodes && MyKey(h, put.nodes[a].vs, key)
                && put.nodes[a].vs.db == (if key in db then db else db[key := value])
                && deleted.nodes[a].vs.db == db - {key})
  {
    UniqueRouting(h, steps, client, key);
    var s := Exec(h, INIT, steps);
    var a := Owner(s.clients[client].cache.mappings, ChunkOf(h, key)).value;
    var i :| 0 <= i < |s.master.config| && s.master.config[i].addr == a;
    assert MyKey(h, s.nodes[a].vs, key);
    RequestAnswers(h, s, a, key, value);
    hide Exec, Next, Owner, ChunkOf, CaughtUp, OnlyAcceptor, Registered, MyKey;
  }

  lemma RequestAnswers(h: HashFn, s: State, a: string, key: string, value: string)
    requires a in s.nodes && MyKey(h, s.nodes[a].vs, key)
    ensures var db := s.nodes[a].vs.db;
            var (put, deleted) := (Next(h, s, ClientPut(a, key, value)), Next(h, s, ClientDelete(a, key)));
            && a in put.nodes && a in deleted.nodes && MyKey(h, put.nodes[a].vs, key)
            && put.nodes[a].vs.db == (if key in db then db else db[key := value])
            && deleted.nodes[a].vs.db == db - {key}
  {
    hide ChunkOf;
    var db := s.nodes[a].vs.db;
    assert key !in db ==> db - {key} == db;
  }
}
