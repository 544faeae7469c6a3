/** The sharded store as one state machine: a master, any number of volume servers and caching clients, and
    every transfer in flight. Steps interleave arbitrarily; a step that is not enabled does nothing. */
module Store {
  import opened Common
  import opened Shards
  import opened ShardMasters
  import opened VolumeServers
  import opened Clients

  /** A poll is two remote calls: the number first, then the configuration. */
  datatype Poll = Idle | GotNum(num: nat) | GotConfig(num: nat, config: Config)

  type ServerState = vs: VS | Sized(vs) witness Fresh("")

  datatype Node = Node(vs: ServerState, poll: Poll)

  /** `Unheard`: the destination accepted the Put and the reply was lost, which the source takes for a failure. */
  datatype Phase = Sent | Accepted | Unheard | Failed

  datatype Transfer = Transfer(src: string, dest: string, key: string, value: string, phase: Phase)

  /** `asked` holds the number from the first call of a query whose second call has not answered. */
  datatype ClientState = ClientState(cache: Cache, asked: Option<nat>)

  /** `history` and `written` record the past; no step reads them. */
  datatype State = State(
    master: Master,
    history: seq<Config>,
    nodes: map<string, Node>,
    transfers: map<nat, Transfer>,
    clients: map<nat, ClientState>,
    written: set<(string, string)>)

  const INIT := State(INITIAL, [[]], map[], map[], map[], {})

  datatype Step =
    | MasterRequest(req: Request)
    | StartServer(addr: string)
    | AskNum(addr: string)
    | AskConfig(addr: string)
    | AdoptConfig(addr: string)
    | ClientPut(addr: string, key: string, value: string)
    | ClientDelete(addr: string, key: string)
    | Dequeue(addr: string, key: string, id: nat)
    | DeliverPut(id: nat, replyLost: bool)
    | LosePut(id: nat)
    | FinishTransfer(id: nat)
    | NewClient(client: nat)
    | ClientAskNum(client: nat)
    | ClientAskConfig(client: nat, ok: bool)

  predicate Enabled(h: HashFn, s: State, step: Step) {
    match step
    case MasterRequest(req) => Legal(s.master, req)
    case StartServer(addr) =>
      addr !in s.nodes && !Registered(s.master.config, addr) && Legal(s.master, Request.Join(addr))
    case AskNum(addr) => addr in s.nodes && s.nodes[addr].poll.Idle?
    case AskConfig(addr) => addr in s.nodes && s.nodes[addr].poll.GotNum?
    case AdoptConfig(addr) =>
      && addr in s.nodes && s.nodes[addr].poll.GotConfig?
      && ChunksInRange(Diff(s.nodes[addr].poll.config, s.nodes[addr].vs.myConfig))
    case ClientPut(addr, _, _) => addr in s.nodes
    case ClientDelete(addr, _) => addr in s.nodes
    case Dequeue(addr, key, id) => addr in s.nodes && key in s.nodes[addr].vs.queue && id !in s.transfers
    case DeliverPut(id, _) => id in s.transfers && s.transfers[id].phase == Sent && s.transfers[id].dest in s.nodes
    case LosePut(id) => id in s.transfers && s.transfers[id].phase == Sent
    case FinishTransfer(id) => id in s.transfers && s.transfers[id].phase != Sent && s.transfers[id].src in s.nodes
    case NewClient(client) => client !in s.clients
    case ClientAskNum(client) => client in s.clients && s.clients[client].asked.None?
    case ClientAskConfig(client, _) => client in s.clients && s.clients[client].asked.Some?
  }

  function WithVs(s: State, addr: string, vs: ServerState): State
    requires addr in s.nodes
  {
    s.(nodes := s.nodes[addr := s.nodes[addr].(vs := vs)])
  }

  function WithPoll(s: State, addr: string, poll: Poll): State
    requires addr in s.nodes
  {
    s.(nodes := s.nodes[addr := s.nodes[addr].(poll := poll)])
  }

  function DoMaster(s: State, req: Request): State {
    var (m, status) := Handle(s.master, req);
    if status == ShardMasters.OK then s.(master := m, history := s.history + [m.config]) else s
  }

  function DoAskNum(s: State, addr: string): State
    requires addr in s.nodes
  {
    if s.nodes[addr].vs.configNum < s.master.num then WithPoll(s, addr, GotNum(s.master.num)) else s
  }

  function DoAskConfig(s: State, addr: string): State
    requires addr in s.nodes && s.nodes[addr].poll.GotNum?
  {
    WithPoll(s, addr, GotConfig(s.nodes[addr].poll.num, s.master.config))
  }

  function DoAdopt(s: State, addr: string): State
    requires addr in s.nodes && s.nodes[addr].poll.GotConfig?
    requires ChunksInRange(Diff(s.nodes[addr].poll.config, s.nodes[addr].vs.myConfig))
  {
    var node := s.nodes[addr];
    s.(nodes := s.nodes[addr := Node(Adopt(node.vs, node.poll.num, node.poll.config), Idle)])
  }

  function WithClient(s: State, client: nat, c: ClientState): State {
    s.(clients := s.clients[client := c])
  }

  function ClientAsks(s: State, c: ClientState): ClientState {
    if c.cache.num < s.master.num then c.(asked := Some(s.master.num)) else c
  }

  function ClientFetches(s: State, c: ClientState, ok: bool): ClientState {
    ClientState(Refresh(c.cache, c.asked, if ok then Some(s.master.config) else None), None)
  }

  function DoDequeue(h: HashFn, s: State, addr: string, key: string, id: nat): State
    requires addr in s.nodes && key in s.nodes[addr].vs.queue && id !in s.transfers
  {
    var (vs, taken) := TakeKey(h, s.nodes[addr].vs, key);
    var s' := WithVs(s, addr, vs);
    if taken.None? then s'
    else s'.(transfers := s.transfers[id := Transfer(addr, taken.value.0, key, taken.value.1, Sent)])
  }

  function DoDeliver(h: HashFn, s: State, id: nat, replyLost: bool): State
    requires id in s.transfers && s.transfers[id].dest in s.nodes
  {
    var t := s.transfers[id];
    var (vs, status) := HandlePut(h, s.nodes[t.dest].vs, t.key, t.value);
    var phase := if !status.OK? then Failed else if replyLost then Unheard else Accepted;
    WithVs(s, t.dest, vs).(transfers := s.transfers[id := t.(phase := phase)])
  }

  function DoFinish(h: HashFn, s: State, id: nat): State
    requires id in s.transfers && s.transfers[id].src in s.nodes
  {
    var t := s.transfers[id];
    WithVs(s, t.src, EndTransfer(h, s.nodes[t.src].vs, t.key, t.phase == Accepted)).(transfers := s.transfers - {id})
  }

  function DoPut(h: HashFn, s: State, addr: string, key: string, value: string): State
    requires addr in s.nodes
  {
    var (vs, status) := HandlePut(h, s.nodes[addr].vs, key, value);
    if status.OK? then WithVs(s, addr, vs).(written := s.written + {(key, value)}) else s
  }

  function Apply(h: HashFn, s: State, step: Step): State
    requires Enabled(h, s, step)
  {
    match step
    case MasterRequest(req) => DoMaster(s, req)
    case StartServer(addr) =>
      var s' := DoMaster(s, Request.Join(addr));
      s'.(nodes := s.nodes[addr := Node(Fresh(addr), Idle)])
    case AskNum(addr) => DoAskNum(s, addr)
    case AskConfig(addr) => DoAskConfig(s, addr)
    case AdoptConfig(addr) => DoAdopt(s, addr)
    case ClientPut(addr, key, value) => DoPut(h, s, addr, key, value)
    case ClientDelete(addr, key) => WithVs(s, addr, HandleDelete(h, s.nodes[addr].vs, key).0)
    case Dequeue(addr, key, id) => DoDequeue(h, s, addr, key, id)
    case DeliverPut(id, replyLost) => DoDeliver(h, s, id, replyLost)
    case LosePut(id) => s.(transfers := s.transfers[id := s.transfers[id].(phase := Failed)])
    case FinishTransfer(id) => DoFinish(h, s, id)
    case NewClient(client) => WithClient(s, client, ClientState(EMPTY, None))
    case ClientAskNum(client) => WithClient(s, client, ClientAsks(s, s.clients[client]))
    case ClientAskConfig(client, ok) => WithClient(s, client, ClientFetches(s, s.clients[client], ok))
  }

  function Next(h: HashFn, s: State, step: Step): State {
    if Enabled(h, s, step) then Apply(h, s, step) else s
  }

  /** The state after a run of steps. */
  function Exec(h: HashFn, s: State, steps: seq<Step>): State {
    if steps == [] then s else Next(h, Exec(h, s, steps[..|steps| - 1]), steps[|steps| - 1])
  }
}
