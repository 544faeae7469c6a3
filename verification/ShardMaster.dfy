/** The shard master (server/shard_master/shard_master.cc): what each request does to the configuration,
    and the object whose loops do it. */
module ShardMasters {
  import opened Common
  import opened Sums
  import opened Shards

  datatype Status = OK | AlreadyExists | NotFound

  datatype Request = Join(addr: string) | Leave(addr: string) | Move(target: string, range: Shard)

  /** `sm_config` and `config_num`. */
  datatype Master = Master(config: Config, num: nat)

  const INITIAL := Master([], 0)

  /** The interval given to server i of n, with the wrap-around of the source's unsigned arithmetic. */
  function Share(n: nat, i: nat): Shard
    requires i < n
  {
    Shard(((NUM_CHUNKS / n) * i) % TWO32,
          if i == n - 1 then NUM_CHUNKS else ((NUM_CHUNKS / n) * (i + 1) - 1) % TWO32)
  }

  function Redistributed(config: Config): (r: Config)
    ensures |r| == |config|
    ensures forall i :: 0 <= i < |config| ==> r[i] == Entry(config[i].addr, [Share(|config|, i)])
  {
    seq(|config|, i requires 0 <= i < |config| => Entry(config[i].addr, [Share(|config|, i)]))
  }

  /** The configuration without its first entry for addr. */
  function Without(config: Config, addr: string): Config {
    if config == [] then []
    else if config[0].addr == addr then config[1..]
    else [config[0]] + Without(config[1..], addr)
  }

  function Handle(m: Master, r: Request): (Master, Status) {
    match r
    case Join(addr) =>
      if Registered(m.config, addr) then (m, AlreadyExists)
      else (Master(Redistributed(m.config + [Entry(addr, [])]), m.num + 1), OK)
    case Leave(addr) =>
      if !Registered(m.config, addr) then (m, NotFound)
      else (Master(Redistributed(Without(m.config, addr)), m.num + 1), OK)
    case Move(target, range) =>
      if !Registered(m.config, target) then (m, NotFound)
      else (Master(Moved(m.config, target, range), m.num + 1), OK)
  }

  /** Addresses are distinct and, while any server is registered, the shards partition the chunks. */
  ghost predicate GoodConfig(config: Config) {
    DistinctAddrs(config) && (config != [] ==> Partition(config))
  }

  ghost predicate Good(m: Master) {
    GoodConfig(m.config)
  }

  /** What a caller can check before a request: a move names a proper interval of chunks, and a join does
      not bring the number of servers above the number of chunks. */
  predicate Legal(m: Master, r: Request) {
    match r
    case Join(addr) => Registered(m.config, addr) || |m.config| < NUM_CHUNKS
    case Leave(_) => true
    case Move(target, range) => Registered(m.config, target) ==> InRange(range)
  }

  // Redistribution

  lemma ProductBounds(q: nat, i: nat, n: nat)
    requires i < n
    ensures 0 <= q * i && q * (i + 1) == q * i + q <= q * n
  {
    if i + 1 < n {
      ProductBounds(q, i, n - 1);
    }
  }

  lemma ShareBounds(n: nat, i: nat)
    requires 0 < n <= NUM_CHUNKS && i < n
    ensures var q := NUM_CHUNKS / n;
            && 1 <= q && q * n + NUM_CHUNKS % n == NUM_CHUNKS
            && Share(n, i).lower == q * i
            && Share(n, i).upper == if i == n - 1 then NUM_CHUNKS else q * i + q - 1
    ensures InRange(Share(n, i))
  {
    var q := NUM_CHUNKS / n;
    ProductBounds(q, i, n);
    assert q * n + NUM_CHUNKS % n == NUM_CHUNKS;
  }

  lemma SingleHit(s: Shard, c: int)
    ensures Hits([s], c) == if InShard(c, s) then 1 else 0
  {
    assert [s] == [] + [s];
    SumPush([], s, Hit(c));
  }

  /** The first k of n shares cover exactly the first k * (1000 / n) chunks, once each. */
  lemma {:induction false} SharesPrefix(config: Config, k: nat, c: int)
    requires k < |config| <= NUM_CHUNKS
    ensures ConfigHits(Redistributed(config)[..k], c) == if 0 <= c < (NUM_CHUNKS / |config|) * k then 1 else 0
  {
    if k > 0 {
      var n, r, q := |config|, Redistributed(config), NUM_CHUNKS / |config|;
      SharesPrefix(config, k - 1, c);
      assert r[..k][..k - 1] == r[..k - 1];
      ShareBounds(n, k - 1);
      SingleHit(Share(n, k - 1), c);
      assert 0 <= q * (k - 1);
      assert q * k == q * (k - 1) + q;
    }
  }

  /** Redistribution restores the partition from any configuration, broken or not, of 1..1000 servers. */
  lemma RedistributionPartitions(config: Config)
    requires 0 < |config| <= NUM_CHUNKS
    ensures Partition(Redistributed(config))
  {
    var n, r := |config|, Redistributed(config);
    forall e, i | 0 <= e < |r| && 0 <= i < |r[e].shards| ensures InRange(r[e].shards[i]) {
      ShareBounds(n, e);
    }
    forall c: nat | c <= NUM_CHUNKS ensures ConfigHits(r, c) == 1 {
      SharesPrefix(config, n - 1, c);
      ShareBounds(n, n - 1);
      SingleHit(Share(n, n - 1), c);
    }
  }

  /** With more than 1000 servers the bound (1000 / n) * (i + 1) - 1 wraps to 2^32 - 1, so redistribution
      partitions the chunks exactly when there are at most 1000 servers. */
  lemma RedistributionIff(config: Config)
    requires config != []
    ensures Partition(Redistributed(config)) <==> |config| <= NUM_CHUNKS
  {
    if |config| <= NUM_CHUNKS {
      RedistributionPartitions(config);
    } else {
      var r := Redistributed(config);
      assert NUM_CHUNKS / |config| == 0;
      assert Share(|config|, 0).upper == TWO32 - 1;
      assert r[0].shards[0] == Share(|config|, 0);
    }
  }

  /** How many chunks each server is given. */
  lemma ShareSizes(n: nat, i: nat)
    requires 0 < n <= NUM_CHUNKS && i < n
    ensures var s := Share(n, i);
            s.upper - s.lower + 1 == NUM_CHUNKS / n + if i == n - 1 then NUM_CHUNKS % n + 1 else 0
  {
    ShareBounds(n, i);
    ProductBounds(NUM_CHUNKS / n, n - 1, n);
  }

  // Requests

  lemma {:induction false} WithoutAt(config: Config, addr: string, i: nat)
    requires i < |config| && config[i].addr == addr
    requires forall j :: 0 <= j < i ==> config[j].addr != addr
    ensures Without(config, addr) == config[..i] + config[i + 1..]
  {
    if i > 0 {
      WithoutAt(config[1..], addr, i - 1);
      assert config[1..][..i - 1] == config[1..i];
      assert config[..i] == [config[0]] + config[1..i];
    }
  }

  lemma {:induction false} WithoutKeeps(config: Config, addr: string)
    requires DistinctAddrs(config) && Registered(config, addr)
    ensures |Without(config, addr)| == |config| - 1 && DistinctAddrs(Without(config, addr))
    ensures forall a :: Registered(Without(config, addr), a) <==> a != addr && Registered(config, a)
  {
    if config[0].addr == addr {
      forall a ensures Registered(config[1..], a) <==> a != addr && Registered(config, a) {
        if a != addr && Registered(config, a) {
          var i :| 0 <= i < |config| && config[i].addr == a;
          assert config[1..][i - 1].addr == a;
        }
      }
    } else {
      var rest := Without(config[1..], addr);
      var i :| 0 <= i < |config| && config[i].addr == addr;
      assert config[1..][i - 1].addr == addr;
      WithoutKeeps(config[1..], addr);
      forall a ensures Registered(Without(config, addr), a) <==> a != addr && Registered(config, a) {
        RegisteredCons(config[0], rest, a);
        RegisteredCons(config[0], config[1..], a);
        assert config == [config[0]] + config[1..];
      }
      forall j | 0 <= j < |rest| ensures rest[j].addr != config[0].addr {
        assert Registered(rest, rest[j].addr);
        assert Registered(config[1..], rest[j].addr);
      }
    }
  }

  lemma RegisteredCons(e: Entry, rest: Config, a: string)
    ensures Registered([e] + rest, a) <==> e.addr == a || Registered(rest, a)
  {
    var all := [e] + rest;
    if e.addr == a {
      assert all[0].addr == a;
    }
    if Registered(rest, a) {
      var i :| 0 <= i < |rest| && rest[i].addr == a;
      assert all[i + 1].addr == a;
    }
    if Registered(all, a) && e.addr != a {
      var i :| 0 <= i < |all| && all[i].addr == a;
      assert rest[i - 1].addr == a;
    }
  }

  lemma DistinctAfterJoin(config: Config, addr: string)
    requires DistinctAddrs(config) && !Registered(config, addr)
    ensures DistinctAddrs(config + [Entry(addr, [])])
  {
  }

  /** One request: a refused request changes nothing, an accepted one advances the number by exactly one,
      and the partition survives exactly the legal requests. */
  lemma HandleKeepsGood(m: Master, r: Request)
    requires Good(m) && |m.config| <= NUM_CHUNKS
    ensures var (m', status) := Handle(m, r);
            && (status != OK ==> m' == m)
            && (status == OK ==> m'.num == m.num + 1)
            && DistinctAddrs(m'.config)
            && (Good(m') <==> Legal(m, r))
            && (Legal(m, r) ==> |m'.config| <= NUM_CHUNKS)
  {
    match r
    case Join(addr) =>
      if !Registered(m.config, addr) {
        DistinctAfterJoin(m.config, addr);
        RedistributionIff(m.config + [Entry(addr, [])]);
      }
    case Leave(addr) =>
      if Registered(m.config, addr) {
        WithoutKeeps(m.config, addr);
        if Without(m.config, addr) != [] {
          RedistributionIff(Without(m.config, addr));
        }
      }
    case Move(target, range) =>
      if Registered(m.config, target) {
        MovePartitionIff(m.config, target, range);
      }
  }

  /** The handler accepts a reversed range, and chunk 5 then lies in two shards. */
  lemma ReversedMoveBreaksPartition()
    ensures var m := Handle(INITIAL, Request.Join("a")).0;
            var (m', status) := Handle(m, Request.Move("a", Shard(7, 3)));
            && Good(m) && status == OK && !Good(m')
            && m'.config == [Entry("a", [Shard(0, 6), Shard(4, 1000), Shard(7, 3)])] && ConfigHits(m'.config, 5) == 2
  {
    HandleKeepsGood(INITIAL, Request.Join("a"));
    var m := Handle(INITIAL, Request.Join("a")).0;
    assert m.config == [Entry("a", [Shard(0, 1000)])];
    assert m.config[0].addr == "a";
    var range := Shard(7, 3);
    HandleKeepsGood(m, Request.Move("a", range));
    var m' := Handle(m, Request.Move("a", range)).0;
    var shards := m'.config[0].shards;
    assert shards == [Shard(0, 6), Shard(4, 1000)] + [range] by {
      assert [Shard(0, 1000)][..0] == [];
      assert Remnants([], range) == [];
      assert Remnants([Shard(0, 1000)], range) == Subtract(Shard(0, 1000), range);
    }
    ReversedSubtract(Shard(0, 1000), range, 5);
    SumConcat(Subtract(Shard(0, 1000), range), [range], Hit(5));
    SingleHit(range, 5);
    assert m'.config == [] + [Entry("a", shards)];
    SumPush([], m'.config[0], EntryHits(5));
    assert Good(m);
    assert Registered(m.config, "a");
    assert !Good(m');
    assert ConfigHits(m'.config, 5) == 2;
    assert shards == [Shard(0, 6), Shard(4, 1000), Shard(7, 3)];
  }

  /** Who is registered after a request. */
  lemma HandleRegisters(m: Master, r: Request, a: string)
    requires DistinctAddrs(m.config)
    ensures Registered(Handle(m, r).0.config, a) <==>
            match r
            case Join(addr) => a == addr || Registered(m.config, a)
            case Leave(addr) => a != addr && Registered(m.config, a)
            case Move(_, _) => Registered(m.config, a)
  {
    match r
    case Join(addr) =>
      SameAddrs(m.config + [Entry(addr, [])], Redistributed(m.config + [Entry(addr, [])]), a);
      RegisteredSnoc(m.config, Entry(addr, []), a);
    case Leave(addr) =>
      if Registered(m.config, addr) {
        WithoutKeeps(m.config, addr);
        SameAddrs(Without(m.config, addr), Redistributed(Without(m.config, addr)), a);
      }
    case Move(target, range) =>
      SameAddrs(m.config, Moved(m.config, target, range), a);
  }

  function Addrs(config: Config): (r: seq<string>)
    ensures |r| == |config| && forall i :: 0 <= i < |config| ==> r[i] == config[i].addr
  {
    seq(|config|, i requires 0 <= i < |config| => config[i].addr)
  }

  /** What each request answers, and what it does to the order of the servers, on which the shares depend: a join goes
      to the end, a leave closes the gap, a move changes no position. */
  lemma HandleAnswers(m: Master, r: Request)
    ensures var (m', status) := Handle(m, r);
            match r
            case Join(addr) =>
              && status == (if addr in Addrs(m.config) then AlreadyExists else OK)
              && (status == OK ==> Addrs(m'.config) == Addrs(m.config) + [addr])
            case Leave(addr) =>
              && status == (if addr in Addrs(m.config) then OK else NotFound)
              && (status == OK ==>
                    exists i ::
                      && 0 <= i < |m.config| && m.config[i].addr == addr
                      && Addrs(m'.config) == Addrs(m.config)[..i] + Addrs(m.config)[i + 1..])
            case Move(target, _) =>
              && status == (if target in Addrs(m.config) then OK else NotFound)
              && Addrs(m'.config) == Addrs(m.config)
  {
    match r
    case Join(addr) => RegisteredAddrs(m.config, addr);
    case Leave(addr) =>
      RegisteredAddrs(m.config, addr);
      if Registered(m.config, addr) {
        var i := FirstAt(m.config, addr);
        WithoutAt(m.config, addr, i);
        assert Addrs(Handle(m, r).0.config) == Addrs(m.config)[..i] + Addrs(m.config)[i + 1..];
      }
    case Move(target, _) => RegisteredAddrs(m.config, target);
  }

  lemma RegisteredAddrs(config: Config, addr: string)
    ensures Registered(config, addr) <==> addr in Addrs(config)
  {
    if addr in Addrs(config) {
      var i :| 0 <= i < |config| && Addrs(config)[i] == addr;
      assert config[i].addr == addr;
    }
    if Registered(config, addr) {
      var i :| 0 <= i < |config| && config[i].addr == addr;
      assert Addrs(config)[i] == addr;
    }
  }

  lemma {:induction false} FirstAt(config: Config, addr: string) returns (i: nat)
    requires Registered(config, addr)
    ensures i < |config| && config[i].addr == addr && forall j :: 0 <= j < i ==> config[j].addr != addr
  {
    if config[0].addr == addr {
      i := 0;
    } else {
      var k :| 0 <= k < |config| && config[k].addr == addr;
      assert config[1..][k - 1].addr == addr;
      i := FirstAt(config[1..], addr);
      i := i + 1;
    }
  }

  /** The shares after an accepted join or leave, in order of position: server i of n starts at i * (1000 / n) and
      ends just before the next one, and the last ends at 1000. */
  lemma SharesInOrder(m: Master, r: Request, i: nat)
    requires !r.Move? && Handle(m, r).1 == OK
    requires i < |Handle(m, r).0.config| <= NUM_CHUNKS
    ensures var config := Handle(m, r).0.config;
            && |config[i].shards| == 1
            && config[i].shards[0].lower == i * (NUM_CHUNKS / |config|)
            && (i + 1 < |config| ==>
                  && |config[i + 1].shards| == 1
                  && config[i].shards[0].upper + 1 == config[i + 1].shards[0].lower)
            && (i + 1 == |config| ==> config[i].shards[0].upper == NUM_CHUNKS)
  {
    var config := Handle(m, r).0.config;
    var n := |config|;
    assert config[i].shards == [Share(n, i)];
    ShareBounds(n, i);
    if i + 1 < n {
      assert config[i + 1].shards == [Share(n, i + 1)];
      ShareBounds(n, i + 1);
      ProductBounds(NUM_CHUNKS / n, i, n);
    }
  }

  lemma SameAddrs(x: Config, y: Config, a: string)
    requires |x| == |y| && forall i :: 0 <= i < |x| ==> x[i].addr == y[i].addr
    ensures Registered(x, a) <==> Registered(y, a)
  {
    if Registered(x, a) {
      var i :| 0 <= i < |x| && x[i].addr == a;
      assert y[i].addr == a;
    }
  }

  lemma RegisteredSnoc(config: Config, e: Entry, a: string)
    ensures Registered(config + [e], a) <==> e.addr == a || Registered(config, a)
  {
    var all := config + [e];
    if e.addr == a {
      assert all[|config|].addr == a;
    }
    if Registered(config, a) {
      var i :| 0 <= i < |config| && config[i].addr == a;
      assert all[i].addr == a;
    }
  }

  // Whole runs

  function Run(m: Master, reqs: seq<Request>): Master {
    if reqs == [] then m else Handle(Run(m, reqs[..|reqs| - 1]), reqs[|reqs| - 1]).0
  }

  ghost predicate LegalRun(m: Master, reqs: seq<Request>) {
    forall i :: 0 <= i < |reqs| ==> Legal(Run(m, reqs[..i]), reqs[i])
  }

  /** Partition over every run: after any legal sequence of joins, leaves and moves, accepted or refused. */
  lemma {:induction false} PartitionInEveryRun(reqs: seq<Request>)
    requires LegalRun(INITIAL, reqs)
    ensures Good(Run(INITIAL, reqs)) && |Run(INITIAL, reqs).config| <= NUM_CHUNKS
  {
    if reqs != [] {
      var init, last := reqs[..|reqs| - 1], reqs[|reqs| - 1];
      forall i | 0 <= i < |init| ensures Legal(Run(INITIAL, init[..i]), init[i]) {
        assert init[..i] == reqs[..i];
      }
      PartitionInEveryRun(init);
      assert Legal(Run(INITIAL, init), last);
      HandleKeepsGood(Run(INITIAL, init), last);
    }
  }

  lemma {:induction false} OneShardEach(config: Config)
    requires forall i :: 0 <= i < |config| ==> |config[i].shards| == 1
    ensures TotalShards(config) == |config|
  {
    if config != [] {
      OneShardEach(config[..|config| - 1]);
    }
  }

  /** Fragmentation: k legal moves after a redistribution to n servers leave at most n + 2k shards. */
  lemma {:induction false} FragmentationBound(config: Config, num: nat, moves: seq<Request>)
    requires DistinctAddrs(config) && 0 < |config| <= NUM_CHUNKS
    requires forall i :: 0 <= i < |moves| ==> moves[i].Move? && InRange(moves[i].range)
    ensures var m := Run(Master(Redistributed(config), num), moves);
            Good(m) && |m.config| == |config| && TotalShards(m.config) <= |config| + 2 * |moves|
  {
    if moves == [] {
      RedistributionPartitions(config);
      OneShardEach(Redistributed(config));
    } else {
      var init, last := moves[..|moves| - 1], moves[|moves| - 1];
      FragmentationBound(config, num, init);
      var m := Run(Master(Redistributed(config), num), init);
      HandleKeepsGood(m, last);
      MoveFragmentation(m.config, last.target, last.range);
    }
  }

  /** The master object. The mutex of the source makes each handler one step. */
  class ShardMaster {
    var smConfig: Config
    var configNum: nat

    function View(): Master
      reads this
    {
      Master(smConfig, configNum)
    }

    constructor ()
      ensures View() == INITIAL
    {
      smConfig, configNum := [], 0;
    }

    method Query() returns (config: Config)
      ensures config == smConfig
    {
      config := [];
      for i := 0 to |smConfig|
        invariant config == smConfig[..i]
      {
        var shards := [];
        for j := 0 to |smConfig[i].shards|
          invariant shards == smConfig[i].shards[..j]
        {
          shards := shards + [Shard(smConfig[i].shards[j].lower, smConfig[i].shards[j].upper)];
        }
        assert shards == smConfig[i].shards;
        config := config + [Entry(smConfig[i].addr, shards)];
      }
    }

    method QueryConfigNum() returns (num: nat)
      ensures num == configNum
    {
      num := configNum;
    }

    method Exists(addr: string) returns (found: bool)
      ensures found <==> Registered(smConfig, addr)
    {
      found := false;
      for i := 0 to |smConfig|
        invariant !found && forall j :: 0 <= j < i ==> smConfig[j].addr != addr
      {
        if smConfig[i].addr == addr {
          return true;
        }
      }
    }

    method Move(target: string, range: Shard) returns (status: Status)
      modifies this
      ensures (View(), status) == Handle(old(View()), Request.Move(target, range))
    {
      var serverExists := Exists(target);
      if !serverExists {
        return NotFound;
      }
      ghost var before := smConfig;
      for e := 0 to |smConfig|
        invariant |smConfig| == |before| && smConfig[e..] == before[e..] && configNum == old(configNum)
        invariant forall k :: 0 <= k < e ==> smConfig[k] == MovedEntry(before[k], target, range)
      {
        assert smConfig[e] == smConfig[e..][0] == before[e];
        var shards := smConfig[e].shards;
        var newShards := [];
        for i := 0 to |shards|
          invariant newShards == Remnants(shards[..i], range)
        {
          var result := Subtract(shards[i], range);
          assert shards[..i + 1][..i] == shards[..i];
          if |result| > 0 {
            newShards := newShards + [result[0]];
          }
          if |result| > 1 {
            newShards := newShards + [result[1]];
          }
        }
        assert shards[..|shards|] == shards;
        if smConfig[e].addr == target {
          newShards := newShards + [range];
        }
        smConfig := smConfig[e := Entry(smConfig[e].addr, newShards)];
      }
      assert smConfig == Moved(before, target, range);
      configNum := configNum + 1;
      status := OK;
    }

    method Join(addr: string) returns (status: Status)
      modifies this
      ensures (View(), status) == Handle(old(View()), Request.Join(addr))
    {
      var serverExists := Exists(addr);
      if serverExists {
        return AlreadyExists;
      }
      smConfig := smConfig + [Entry(addr, [])];
      RedistributeChunks();
      status := OK;
    }

    method Leave(addr: string) returns (status: Status)
      modifies this
      ensures (View(), status) == Handle(old(View()), Request.Leave(addr))
    {
      ghost var before := smConfig;
      var serverExists := false;
      for i := 0 to |smConfig|
        invariant smConfig == before && !serverExists && configNum == old(configNum)
        invariant forall j :: 0 <= j < i ==> before[j].addr != addr
      {
        if smConfig[i].addr == addr {
          WithoutAt(before, addr, i);
          smConfig := smConfig[..i] + smConfig[i + 1..];
          serverExists := true;
          break;
        }
      }
      if serverExists {
        RedistributeChunks();
        status := OK;
      } else {
        status := NotFound;
      }
    }

    method RedistributeChunks()
      modifies this
      ensures smConfig == Redistributed(old(smConfig)) && configNum == old(configNum) + 1
    {
      configNum := configNum + 1;
      ghost var before := smConfig;
      var numVs := |smConfig|;
      for i := 0 to numVs
        invariant |smConfig| == |before| && smConfig[i..] == before[i..] && configNum == old(configNum) + 1
        invariant forall k :: 0 <= k < i ==> smConfig[k] == Entry(before[k].addr, [Share(numVs, k)])
      {
        assert smConfig[i] == smConfig[i..][0] == before[i];
        var lower := ((NUM_CHUNKS / numVs) * i) % TWO32;
        var upper := if i == numVs - 1 then NUM_CHUNKS else ((NUM_CHUNKS / numVs) * (i + 1) - 1) % TWO32;
        smConfig := smConfig[i := Entry(smConfig[i].addr, [Shard(lower, upper)])];
      }
    }
  }
}
