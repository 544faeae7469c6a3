/** The client's versioned configuration cache and its routing (client/client.cc). */
module Clients {
  import opened Common
  import opened Shards
  import opened VolumeServers

  datatype QueryStatus = Success | RpcFail | RpcFailReset

  datatype Cache = Cache(num: nat, mappings: Config)

  const EMPTY := Cache(0, [])

  /** The cache after both calls of `Query`; None stands for a call that failed. */
  function Refresh(cache: Cache, num: Option<nat>, config: Option<Config>): Cache {
    if num.None? || num.value <= cache.num then cache
    else if config.None? then EMPTY
    else Cache(num.value, config.value)
  }

  class Client {
    const hash: HashFn
    var mappings: Config
    var configNum: nat

    function View(): Cache
      reads this
    {
      Cache(configNum, mappings)
    }

    constructor (hash: HashFn)
      ensures this.hash == hash && View() == EMPTY
    {
      this.hash, mappings, configNum := hash, [], 0;
    }

    method Query(num: Option<nat>, config: Option<Config>) returns (status: QueryStatus)
      modifies this
      ensures View() == Refresh(old(View()), num, config)
      ensures num.None? || num.value <= old(configNum) ==> View() == old(View())
      ensures num.Some? && old(configNum) < num.value ==>
                match config
                case Some(c) => configNum == num.value && mappings == c
                case None => configNum == 0 && mappings == []
      ensures status == RpcFail <==> num.None?
      ensures status == RpcFailReset <==> num.Some? && old(configNum) < num.value && config.None?
    {
      if num.None? {
        return RpcFail;
      }
      if configNum < num.value {
        mappings := [];
        if config.None? {
          configNum := 0;
          return RpcFailReset;
        }
        mappings := config.value;
        configNum := num.value;
      }
      status := Success;
    }

    /** The address to contact for a key, or the empty string when no entry covers its chunk. */
    method GetVSAddr(key: string) returns (addr: string)
      ensures addr == match Owner(mappings, ChunkOf(hash, key)) case Some(a) => a case None => ""
    {
      var shardMod := ChunkOf(hash, key);
      for e := 0 to |mappings|
        invariant Owner(mappings, shardMod) == Owner(mappings[e..], shardMod)
      {
        var shards := mappings[e].shards;
        for i := 0 to |shards|
          invariant forall j :: 0 <= j < i ==> !InShard(shardMod, shards[j])
        {
          if shards[i].lower <= shardMod && shardMod <= shards[i].upper {
            assert InShard(shardMod, shards[i]);
            return mappings[e].addr;
          }
        }
        assert mappings[e..][1..] == mappings[e + 1..];
      }
      addr := "";
    }
  }
}
