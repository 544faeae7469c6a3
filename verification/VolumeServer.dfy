/** One volume server (server/volume_server/volume_server.cc): its state as a value, what each handler and
    each part of the migration loop does to that state, and the object whose loops do it. */
module VolumeServers {
  import opened Common
  import opened Sums
  import opened Shards

  datatype Status = OK | BadRequest | KeyExists | KeyNotFound

  /** Maps a key to the integer `get_hash_uint(md5(key))`. */
  type HashFn = string -> nat

  function ChunkOf(h: HashFn, key: string): (c: nat)
    ensures c < NUM_CHUNKS && c <= h(key) && (h(key) - c) % NUM_CHUNKS == 0
  {
    h(key) % NUM_CHUNKS
  }

  /** The fields of a server. `move_queue` is a multiset: the concurrent queue gives no global order. */
  datatype VS = VS(
    addr: string,
    db: map<string, string>,
    modMap: seq<set<string>>,
    toMove: seq<(string, nat)>,
    config: Config,
    myConfig: Entry,
    configNum: nat,
    queue: multiset<string>)

  predicate Sized(vs: VS) {
    |vs.modMap| == NUM_CHUNKS + 1 && |vs.toMove| == NUM_CHUNKS + 1
  }

  predicate MyKey(h: HashFn, vs: VS, key: string) {
    Covers(vs.myConfig.shards, ChunkOf(h, key))
  }

  function KeysOf(h: HashFn, db: map<string, string>, c: nat): set<string> {
    set k | k in db && ChunkOf(h, k) == c
  }

  /** The secondary index lists, for every chunk, exactly the stored keys of that chunk. */
  ghost predicate IndexAgrees(h: HashFn, vs: VS) {
    Sized(vs) && forall c: nat :: c <= NUM_CHUNKS ==> vs.modMap[c] == KeysOf(h, vs.db, c)
  }

  function Fresh(addr: string): VS {
    VS(addr, map[], seq(NUM_CHUNKS + 1, _ => {}), seq(NUM_CHUNKS + 1, _ => ("", 0)), [], Entry("", []), 0, multiset{})
  }

  // Handlers

  function Stored(h: HashFn, vs: VS, key: string, value: string): VS
    requires Sized(vs)
  {
    var c := ChunkOf(h, key);
    vs.(db := vs.db[key := value], modMap := vs.modMap[c := vs.modMap[c] + {key}])
  }

  function Dropped(h: HashFn, vs: VS, key: string): VS
    requires Sized(vs)
  {
    var c := ChunkOf(h, key);
    vs.(db := vs.db - {key}, modMap := vs.modMap[c := vs.modMap[c] - {key}])
  }

  function HandlePut(h: HashFn, vs: VS, key: string, value: string): (VS, Status)
    requires Sized(vs)
  {
    if !MyKey(h, vs, key) then (vs, BadRequest)
    else if key in vs.db then (vs, KeyExists)
    else (Stored(h, vs, key, value), OK)
  }

  function HandleDelete(h: HashFn, vs: VS, key: string): (VS, Status)
    requires Sized(vs)
  {
    if !MyKey(h, vs, key) then (vs, BadRequest)
    else if key !in vs.db then (vs, KeyNotFound)
    else (Dropped(h, vs, key), OK)
  }

  lemma StoredKeepsIndex(h: HashFn, vs: VS, key: string, value: string)
    requires IndexAgrees(h, vs)
    ensures IndexAgrees(h, Stored(h, vs, key, value))
  {
  }

  lemma DroppedKeepsIndex(h: HashFn, vs: VS, key: string)
    requires IndexAgrees(h, vs)
    ensures IndexAgrees(h, Dropped(h, vs, key))
  {
  }

  /** What a Put answers and does: it stores exactly when the key is the server's and absent. */
  lemma PutAnswers(h: HashFn, vs: VS, key: string, value: string)
    requires Sized(vs)
    ensures var (r, status) := HandlePut(h, vs, key, value);
            var mine := Covers(vs.myConfig.shards, ChunkOf(h, key));
            && (status == BadRequest <==> !mine)
            && (status == KeyExists <==> mine && key in vs.db)
            && (status == OK <==> mine && key !in vs.db)
            && (status != OK ==> r == vs)
            && (status == OK ==>
                  && r == vs.(db := r.db, modMap := r.modMap)
                  && r.db.Keys == vs.db.Keys + {key} && r.db[key] == value
                  && forall k :: k in vs.db ==> r.db[k] == vs.db[k])
  {
    hide ChunkOf;
  }

  /** What a Delete answers and does: it removes exactly when the key is the server's and present. */
  lemma DeleteAnswers(h: HashFn, vs: VS, key: string)
    requires Sized(vs)
    ensures var (r, status) := HandleDelete(h, vs, key);
            var mine := Covers(vs.myConfig.shards, ChunkOf(h, key));
            && (status == BadRequest <==> !mine)
            && (status == KeyNotFound <==> mine && key !in vs.db)
            && (status == OK <==> mine && key in vs.db)
            && (status != OK ==> r == vs)
            && (status == OK ==>
                  && r == vs.(db := r.db, modMap := r.modMap)
                  && r.db.Keys == vs.db.Keys - {key}
                  && forall k :: k in r.db ==> r.db[k] == vs.db[k])
  {
    hide ChunkOf;
  }

  /** A Delete undoes a Put that stored, index included. */
  lemma DeleteUndoesPut(h: HashFn, vs: VS, key: string, value: string)
    requires IndexAgrees(h, vs) && HandlePut(h, vs, key, value).1 == OK
    ensures HandleDelete(h, HandlePut(h, vs, key, value).0, key) == (vs, OK)
  {
    var c := ChunkOf(h, key);
    assert vs.modMap[c] == KeysOf(h, vs.db, c);
    var put := HandlePut(h, vs, key, value).0;
    assert put.db - {key} == vs.db;
    assert put.modMap[c := put.modMap[c] - {key}] == vs.modMap;
  }

  /** Putting a deleted key back with its value restores the server, index included. */
  lemma PutUndoesDelete(h: HashFn, vs: VS, key: string)
    requires IndexAgrees(h, vs) && HandleDelete(h, vs, key).1 == OK
    ensures HandlePut(h, HandleDelete(h, vs, key).0, key, vs.db[key]) == (vs, OK)
  {
    var c := ChunkOf(h, key);
    assert vs.modMap[c] == KeysOf(h, vs.db, c);
    var deleted := HandleDelete(h, vs, key).0;
    assert deleted.db[key := vs.db[key]] == vs.db;
    assert key in vs.modMap[c] && vs.modMap[c] - {key} + {key} == vs.modMap[c];
    assert deleted.modMap[c := deleted.modMap[c] + {key}] == vs.modMap;
  }

  // The difference of two configurations

  function DiffChunk(c: nat, d: string, mine: seq<Shard>): seq<(nat, string)> {
    if mine == [] then []
    else DiffChunk(c, d, mine[..|mine| - 1]) + if InShard(c, mine[|mine| - 1]) then [(c, d)] else []
  }

  function DiffRange(lo: nat, hi: nat, d: string, mine: seq<Shard>): seq<(nat, string)>
    decreases hi
  {
    if hi <= lo then [] else DiffRange(lo, hi - 1, d, mine) + DiffChunk(hi - 1, d, mine)
  }

  function DiffShards(shards: seq<Shard>, d: string, mine: seq<Shard>): seq<(nat, string)> {
    if shards == [] then []
    else DiffShards(shards[..|shards| - 1], d, mine)
         + DiffRange(shards[|shards| - 1].lower, shards[|shards| - 1].upper + 1, d, mine)
  }

  /** `calcNegativeDiff`: chunks of the previous entry that the configuration gives to someone else. */
  function Diff(config: Config, prev: Entry): seq<(nat, string)> {
    if config == [] then []
    else
      var last := config[|config| - 1];
      Diff(config[..|config| - 1], prev)
      + if last.addr == prev.addr then [] else DiffShards(last.shards, last.addr, prev.shards)
  }

  /** How often entry e contributes chunk c with new owner d. */
  function Gain(prev: Entry, c: int, d: string): Entry -> int {
    (e: Entry) => if e.addr == d && d != prev.addr then Hits(e.shards, c) * Hits(prev.shards, c) else 0
  }

  /** How often x occurs in s. */
  function Count<T(==)>(s: seq<T>, x: T): nat {
    multiset(s)[x]
  }

  lemma CountConcat<T>(a: seq<T>, b: seq<T>, x: T)
    ensures Count(a + b, x) == Count(a, x) + Count(b, x)
  {
    assert multiset(a + b) == multiset(a) + multiset(b);
  }

  lemma {:induction false} DiffChunkCount(c: nat, d: string, mine: seq<Shard>, x: nat, y: string)
    ensures Count(DiffChunk(c, d, mine), (x, y)) == if x == c && y == d then Hits(mine, c) else 0
  {
    if mine != [] {
      DiffChunkCount(c, d, mine[..|mine| - 1], x, y);
    }
  }

  lemma {:induction false} DiffRangeCount(lo: nat, hi: nat, d: string, mine: seq<Shard>, x: nat, y: string)
    ensures Count(DiffRange(lo, hi, d, mine), (x, y)) == if lo <= x < hi && y == d then Hits(mine, x) else 0
    decreases hi
  {
    hide Hits, DiffChunk;
    if lo < hi {
      CountConcat(DiffRange(lo, hi - 1, d, mine), DiffChunk(hi - 1, d, mine), (x, y));
      DiffRangeCount(lo, hi - 1, d, mine, x, y);
      DiffChunkCount(hi - 1, d, mine, x, y);
    }
  }

  lemma Distribute(a: int, b: int, c: int)
    ensures (a + b) * c == a * c + b * c
  {
  }

  lemma {:induction false} DiffShardsCount(shards: seq<Shard>, d: string, mine: seq<Shard>, x: nat, y: string)
    ensures Count(DiffShards(shards, d, mine), (x, y)) == if y == d then Hits(shards, x) * Hits(mine, x) else 0
  {
    HitsLast(shards, x);
    hide Hits, DiffRange;
    if shards != [] {
      var init, last := shards[..|shards| - 1], shards[|shards| - 1];
      DiffShardsCount(init, d, mine, x, y);
      DiffRangeCount(last.lower, last.upper + 1, d, mine, x, y);
      CountConcat(DiffShards(init, d, mine), DiffRange(last.lower, last.upper + 1, d, mine), (x, y));
      Distribute(Hits(init, x), if InShard(x, last) then 1 else 0, Hits(mine, x));
    }
  }

  lemma HitsLast(shards: seq<Shard>, c: int)
    ensures Hits(shards, c) == if shards == [] then 0
                               else Hits(shards[..|shards| - 1], c) + if InShard(c, shards[|shards| - 1]) then 1 else 0
  {
  }

  /** The exact multiplicity of every pair in the difference, for any two configurations. */
  lemma {:induction false} DiffCount(config: Config, prev: Entry, x: nat, y: string)
    ensures Count(Diff(config, prev), (x, y)) == Sum(config, Gain(prev, x, y))
  {
    if config != [] {
      var last := config[|config| - 1];
      DiffCount(config[..|config| - 1], prev, x, y);
      DiffShardsCount(last.shards, last.addr, prev.shards, x, y);
    }
  }

  /** An entry whose shards are disjoint intervals of chunks, as every entry issued by the master is. */
  ghost predicate ProperEntry(e: Entry) {
    && (forall i :: 0 <= i < |e.shards| ==> InRange(e.shards[i]))
    && (forall c: int :: Hits(e.shards, c) <= 1)
  }

  lemma PartitionEntriesProper(config: Config, e: nat)
    requires Partition(config) && e < |config|
    ensures ProperEntry(config[e])
  {
    forall c: int ensures Hits(config[e].shards, c) <= 1 {
      OneHitPerEntry(config, e, c);
    }
  }

  /** Exact difference: on configurations from the master, (c, d) is listed once when c was mine before and
      d is its owner now and is not me, and otherwise not at all. */
  lemma DiffExact(config: Config, prev: Entry, c: nat, d: string)
    requires Partition(config) && DistinctAddrs(config) && ProperEntry(prev)
    ensures Count(Diff(config, prev), (c, d))
         == if d != prev.addr && Covers(prev.shards, c) && Owner(config, c) == Some(d) then 1 else 0
  {
    hide Diff, Sum;
    DiffCount(config, prev, c, d);
    HitsCovers(prev.shards, c);
    if Covers(prev.shards, c) {
      var i :| 0 <= i < |prev.shards| && InShard(c, prev.shards[i]);
      assert InRange(prev.shards[i]);
      PartitionMeans(config);
      assert Owned(config, c);
      var e :| 0 <= e < |config| && Covers(config[e].shards, c);
      OwnerIsEntry(config, e, c);
      GainAtOwner(config, prev, e, c, d);
    } else {
      NoGain(config, prev, c, d);
    }
  }

  lemma NoGain(config: Config, prev: Entry, c: nat, d: string)
    requires Hits(prev.shards, c) == 0
    ensures Sum(config, Gain(prev, c, d)) == 0
  {
    forall i | 0 <= i < |config| ensures Gain(prev, c, d)(config[i]) == 0 {
      assert Hits(config[i].shards, c) * 0 == 0;
    }
    SumZero(config, Gain(prev, c, d));
  }

  lemma GainAtOwner(config: Config, prev: Entry, e: nat, c: nat, d: string)
    requires Partition(config) && DistinctAddrs(config)
    requires e < |config| && Covers(config[e].shards, c) && Hits(prev.shards, c) == 1
    ensures Sum(config, Gain(prev, c, d)) == if d != prev.addr && config[e].addr == d then 1 else 0
  {
    PartitionMeans(config);
    OneHitPerEntry(config, e, c);
    forall i | 0 <= i < |config| && i != e ensures Gain(prev, c, d)(config[i]) == 0 {
      HitsCovers(config[i].shards, c);
    }
    SumAt(config, e, Gain(prev, c, d));
    SumZero(config[..e], Gain(prev, c, d));
    SumZero(config[e + 1..], Gain(prev, c, d));
  }

  // Recording destinations and queueing the stranded keys

  predicate ChunksInRange(removed: seq<(nat, string)>) {
    forall i :: 0 <= i < |removed| ==> removed[i].0 <= NUM_CHUNKS
  }

  /** `updateToMove`. */
  function MarkMoves(vs: VS, removed: seq<(nat, string)>): (r: VS)
    requires Sized(vs) && ChunksInRange(removed)
    ensures Sized(r)
    ensures r == vs.(toMove := r.toMove, queue := r.queue)
  {
    if removed == [] then vs
    else
      var init := MarkMoves(vs, removed[..|removed| - 1]);
      var (c, d) := removed[|removed| - 1];
      if vs.configNum > init.toMove[c].1
      then init.(toMove := init.toMove[c := (d, vs.configNum)], queue := init.queue + multiset(vs.modMap[c]))
      else init
  }

  predicate Mentions(removed: seq<(nat, string)>, c: nat) {
    exists i :: 0 <= i < |removed| && removed[i].0 == c
  }

  predicate OncePerChunk(removed: seq<(nat, string)>) {
    forall i, j :: 0 <= i < j < |removed| ==> removed[i].0 != removed[j].0
  }

  /** The last pair's effect, when its chunk has not been marked at this number yet. */
  lemma MarkLast(h: HashFn, vs: VS, removed: seq<(nat, string)>)
    requires IndexAgrees(h, vs) && ChunksInRange(removed) && removed != []
    requires MarkMoves(vs, removed[..|removed| - 1]).toMove[removed[|removed| - 1].0].1 < vs.configNum
    ensures var (before, after) := (MarkMoves(vs, removed[..|removed| - 1]), MarkMoves(vs, removed));
            var (c, d) := removed[|removed| - 1];
            && after.toMove == before.toMove[c := (d, vs.configNum)]
            && forall k :: after.queue[k] == before.queue[k] + if k in vs.db && ChunkOf(h, k) == c then 1 else 0
  {
    hide ChunkOf;
    var c := removed[|removed| - 1].0;
    assert vs.modMap[c] == KeysOf(h, vs.db, c);
  }

  /** Exact queueing: each listed chunk gets its new destination and the present number, other chunks keep
      theirs, and exactly the stored keys of listed chunks are enqueued, once each. */
  lemma {:induction false} MarkMovesExact(h: HashFn, vs: VS, removed: seq<(nat, string)>)
    requires IndexAgrees(h, vs) && ChunksInRange(removed) && OncePerChunk(removed)
    requires forall c: nat :: c <= NUM_CHUNKS ==> vs.toMove[c].1 < vs.configNum
    ensures var r := MarkMoves(vs, removed);
            && (forall i :: 0 <= i < |removed| ==> r.toMove[removed[i].0] == (removed[i].1, vs.configNum))
            && (forall c: nat :: c <= NUM_CHUNKS && !Mentions(removed, c) ==> r.toMove[c] == vs.toMove[c])
            && (forall k :: r.queue[k] == vs.queue[k] + if k in vs.db && Mentions(removed, ChunkOf(h, k)) then 1 else 0)
  {
    if removed == [] {
      return;
    }
    hide ChunkOf, KeysOf;
    var n := |removed| - 1;
    var init := removed[..n];
    var (c, d) := removed[n];
    MarkMovesExact(h, vs, init);
    assert forall x: nat :: Mentions(removed, x) <==> x == c || Mentions(init, x) by {
      MentionsPush(removed);
    }
    assert !Mentions(init, c);
    assert forall i :: 0 <= i < n ==> removed[i] == init[i];
    MarkLast(h, vs, removed);
    hide MarkMoves, Mentions, OncePerChunk;
  }

  lemma MentionsPush(removed: seq<(nat, string)>)
    requires removed != []
    ensures forall x: nat ::
              Mentions(removed, x) <==> x == removed[|removed| - 1].0 || Mentions(removed[..|removed| - 1], x)
  {
    var init := removed[..|removed| - 1];
    forall x: nat ensures Mentions(removed, x) <==> x == removed[|removed| - 1].0 || Mentions(init, x) {
      if Mentions(init, x) {
        var i :| 0 <= i < |init| && init[i].0 == x;
        assert removed[i].0 == x;
      }
      if Mentions(removed, x) && x != removed[|removed| - 1].0 {
        var i :| 0 <= i < |removed| && removed[i].0 == x;
        assert init[i].0 == x;
      }
    }
  }

  /** A chunk that already has a destination of this number or a later one keeps it, and its keys are not queued
      again. */
  lemma {:induction false} MarkMovesStale(vs: VS, removed: seq<(nat, string)>)
    requires Sized(vs) && ChunksInRange(removed)
    ensures var r := MarkMoves(vs, removed);
            && (forall c: nat :: c <= NUM_CHUNKS && vs.configNum <= vs.toMove[c].1 ==> r.toMove[c] == vs.toMove[c])
            && ((forall i :: 0 <= i < |removed| ==> vs.configNum <= vs.toMove[removed[i].0].1) ==> r == vs)
  {
    if removed != [] {
      MarkMovesStale(vs, removed[..|removed| - 1]);
    }
  }

  // Adopting a configuration

  /** The entry assigned to `my_config`: the last one with this address, or the old entry if there is none. */
  function MyEntry(config: Config, addr: string, prev: Entry): Entry {
    if config == [] then prev
    else if config[|config| - 1].addr == addr then config[|config| - 1]
    else MyEntry(config[..|config| - 1], addr, prev)
  }

  lemma {:induction false} MyEntryMeans(config: Config, addr: string, prev: Entry)
    requires DistinctAddrs(config)
    ensures !Registered(config, addr) ==> MyEntry(config, addr, prev) == prev
    ensures forall i :: 0 <= i < |config| && config[i].addr == addr ==> MyEntry(config, addr, prev) == config[i]
  {
    if config != [] {
      MyEntryMeans(config[..|config| - 1], addr, prev);
      if Registered(config[..|config| - 1], addr) {
        var i :| 0 <= i < |config| - 1 && config[..|config| - 1][i].addr == addr;
        assert config[i].addr == addr;
      }
      assert config[|config| - 1].addr == addr ==> Registered(config, addr);
    }
  }

  function Refreshed(vs: VS, num: nat, config: Config): VS {
    vs.(configNum := num, config := config, myConfig := MyEntry(config, vs.addr, vs.myConfig))
  }

  /** The part of `fetchSMConfig` after both replies have arrived. */
  function Adopt(vs: VS, num: nat, config: Config): VS
    requires Sized(vs) && ChunksInRange(Diff(config, vs.myConfig))
  {
    MarkMoves(Refreshed(vs, num, config), Diff(config, vs.myConfig))
  }

  /** Facts about the difference that make `Adopt` well defined and exact. */
  lemma DiffFacts(config: Config, prev: Entry)
    requires ProperEntry(prev) && DistinctAddrs(config) && (config != [] ==> Partition(config))
    ensures ChunksInRange(Diff(config, prev)) && OncePerChunk(Diff(config, prev))
  {
    var removed := Diff(config, prev);
    forall i | 0 <= i < |removed| ensures removed[i].0 <= NUM_CHUNKS {
      DiffMember(config, prev, removed[i].0, removed[i].1);
      var j :| 0 <= j < |prev.shards| && InShard(removed[i].0, prev.shards[j]);
      assert InRange(prev.shards[j]);
    }
    forall i, j | 0 <= i < j < |removed| ensures removed[i].0 != removed[j].0 {
      DiffMember(config, prev, removed[i].0, removed[i].1);
      DiffMember(config, prev, removed[j].0, removed[j].1);
      if removed[i].0 == removed[j].0 {
        DiffExact(config, prev, removed[i].0, removed[i].1);
        TwiceIn(removed, i, j);
      }
    }
  }

  lemma DiffMember(config: Config, prev: Entry, c: nat, d: string)
    requires ProperEntry(prev) && DistinctAddrs(config) && (config != [] ==> Partition(config))
    ensures (c, d) in Diff(config, prev) <==>
            config != [] && d != prev.addr && Covers(prev.shards, c) && Owner(config, c) == Some(d)
  {
    if config != [] {
      DiffExact(config, prev, c, d);
      assert (c, d) in Diff(config, prev) <==> (c, d) in multiset(Diff(config, prev));
    }
  }

  lemma TwiceIn<T>(s: seq<T>, i: nat, j: nat)
    requires i < j < |s| && s[i] == s[j]
    ensures 2 <= Count(s, s[i])
  {
    assert s == s[..j] + s[j..];
    assert s[i] in s[..j] && s[i] == s[j..][0];
  }

  // The migration loop

  /** One iteration of `moveKeys` on a dequeued key: a missing key goes back, a stored key starts a
      transfer of its value to the recorded destination. */
  function TakeKey(h: HashFn, vs: VS, key: string): (VS, Option<(string, string)>)
    requires Sized(vs) && key in vs.queue
  {
    if key !in vs.db then (vs.(queue := vs.queue - multiset{key} + multiset{key}), None)
    else (vs.(queue := vs.queue - multiset{key}), Some((vs.toMove[ChunkOf(h, key)].0, vs.db[key])))
  }

  /** The source-side end of a transfer: delete on success, queue again otherwise. */
  function EndTransfer(h: HashFn, vs: VS, key: string, accepted: bool): VS
    requires Sized(vs)
  {
    if accepted then Dropped(h, vs, key) else vs.(queue := vs.queue + multiset{key})
  }

  /** What taking a key from the queue does: a stored key leaves it once, bound for the destination of its own chunk
      with its own value; a key that is not stored stays queued as often as it was. */
  lemma TakeAnswers(h: HashFn, vs: VS, key: string)
    requires Sized(vs) && key in vs.queue
    ensures var (r, taken) := TakeKey(h, vs, key);
            && r == vs.(queue := r.queue)
            && (forall k :: r.queue[k] == vs.queue[k] - if k == key && key in vs.db then 1 else 0)
            && (taken.Some? <==> key in vs.db)
            && (taken.Some? ==> taken.value == (vs.toMove[ChunkOf(h, key)].0, vs.db[key]))
  {
    hide ChunkOf;
  }

  /** How a transfer ends at its source: after success the key is gone and not queued again, after failure it is kept
      and queued once more. */
  lemma EndAnswers(h: HashFn, vs: VS, key: string, accepted: bool)
    requires Sized(vs)
    ensures var r := EndTransfer(h, vs, key, accepted);
            && (accepted ==> r == vs.(db := r.db, modMap := r.modMap) && r.db.Keys == vs.db.Keys - {key})
            && (forall k :: k in r.db ==> k in vs.db && r.db[k] == vs.db[k])
            && (!accepted ==> r == vs.(queue := r.queue))
            && (forall k :: r.queue[k] == vs.queue[k] + if k == key && !accepted then 1 else 0)
  {
    hide ChunkOf;
  }

  /** The server object. Each method is one handler, or one step between two remote calls. */
  class VolumeServer {
    const hash: HashFn
    const addr: string
    var db: map<string, string>
    var modMap: seq<set<string>>
    var toMove: seq<(string, nat)>
    var config: Config
    var myConfig: Entry
    var configNum: nat
    var moveQueue: multiset<string>

    function View(): VS
      reads this
    {
      VS(addr, db, modMap, toMove, config, myConfig, configNum, moveQueue)
    }

    constructor (hash: HashFn, addr: string, db: map<string, string>)
      ensures this.hash == hash && View() == Fresh(addr).(db := db, modMap := modMap)
      ensures IndexAgrees(hash, View())
    {
      this.hash, this.addr, this.db := hash, addr, db;
      config, myConfig, configNum := [], Entry("", []), 0;
      toMove := seq(NUM_CHUNKS + 1, _ => ("", 0));
      modMap := seq(NUM_CHUNKS + 1, _ => {});
      moveQueue := multiset{};
      new;
      FormModMap();
    }

    method FormModMap()
      requires |modMap| == |toMove| == NUM_CHUNKS + 1
      modifies this`modMap
      ensures IndexAgrees(hash, View())
    {
      modMap := seq(NUM_CHUNKS + 1, _ => {});
      var rest := db.Keys;
      while rest != {}
        invariant rest <= db.Keys && |modMap| == NUM_CHUNKS + 1
        invariant forall c: nat :: c <= NUM_CHUNKS ==> modMap[c] == KeysOf(hash, db, c) - rest
      {
        var key :| key in rest;
        var shardMod := ChunkOf(hash, key);
        modMap := modMap[shardMod := modMap[shardMod] + {key}];
        rest := rest - {key};
      }
    }

    method IsMyKey(key: string) returns (mine: bool)
      ensures mine <==> MyKey(hash, View(), key)
    {
      var shardMod := ChunkOf(hash, key);
      for i := 0 to |myConfig.shards|
        invariant forall j :: 0 <= j < i ==> !InShard(shardMod, myConfig.shards[j])
      {
        if myConfig.shards[i].lower <= shardMod && shardMod <= myConfig.shards[i].upper {
          return true;
        }
      }
      mine := false;
    }

    method Get(key: string) returns (status: Status, value: string)
      ensures status == (if !MyKey(hash, View(), key) then BadRequest else if key in db then OK else KeyNotFound)
      ensures value == if status == OK then db[key] else ""
    {
      var mine := IsMyKey(key);
      if !mine {
        return BadRequest, "";
      }
      if key !in db {
        return KeyNotFound, "";
      }
      return OK, db[key];
    }

    method Put(key: string, value: string) returns (status: Status)
      requires Sized(View())
      modifies this`db, this`modMap
      ensures (View(), status) == HandlePut(hash, old(View()), key, value)
    {
      var mine := IsMyKey(key);
      if !mine {
        return BadRequest;
      }
      if key in db {
        return KeyExists;
      }
      db := db[key := value];
      var shardMod := ChunkOf(hash, key);
      modMap := modMap[shardMod := modMap[shardMod] + {key}];
      status := OK;
    }

    method Delete(key: string) returns (status: Status)
      requires Sized(View())
      modifies this`db, this`modMap
      ensures (View(), status) == HandleDelete(hash, old(View()), key)
    {
      var mine := IsMyKey(key);
      if !mine {
        return BadRequest;
      }
      if key !in db {
        return KeyNotFound;
      }
      db := db - {key};
      var shardMod := ChunkOf(hash, key);
      modMap := modMap[shardMod := modMap[shardMod] - {key}];
      status := OK;
    }

    method CalcNegativeDiff(prev: Entry) returns (removed: seq<(nat, string)>)
      ensures removed == Diff(config, prev)
    {
      hide DiffRange;
      removed := [];
      for e := 0 to |config|
        invariant removed == Diff(config[..e], prev)
      {
        assert config[..e + 1][..e] == config[..e];
        if config[e].addr != prev.addr {
          ghost var before := removed;
          var shards := config[e].shards;
          for s := 0 to |shards|
            invariant removed == before + DiffShards(shards[..s], config[e].addr, prev.shards)
          {
            assert shards[..s + 1][..s] == shards[..s];
            removed := AppendRange(removed, shards[s], config[e].addr, prev.shards);
          }
          assert shards[..|shards|] == shards;
        }
      }
      assert config[..|config|] == config;
    }

    /** The loop over the chunks of one shard. */
    static method AppendRange(removed: seq<(nat, string)>, shard: Shard, d: string, mine: seq<Shard>)
      returns (r: seq<(nat, string)>)
      ensures r == removed + DiffRange(shard.lower, shard.upper + 1, d, mine)
    {
      r := removed;
      var n: nat := shard.lower;
      while n <= shard.upper
        invariant shard.lower <= n && (n <= shard.upper + 1 || n == shard.lower)
        invariant r == removed + DiffRange(shard.lower, n, d, mine)
      {
        r := AppendHits(r, n, d, mine);
        n := n + 1;
      }
      assert DiffRange(shard.lower, n, d, mine) == DiffRange(shard.lower, shard.upper + 1, d, mine);
    }

    /** The innermost loop of the difference: one pair for each previous shard containing chunk n. */
    static method AppendHits(removed: seq<(nat, string)>, n: nat, d: string, mine: seq<Shard>)
      returns (r: seq<(nat, string)>)
      ensures r == removed + DiffChunk(n, d, mine)
    {
      r := removed;
      for i := 0 to |mine|
        invariant r == removed + DiffChunk(n, d, mine[..i])
      {
        assert mine[..i + 1][..i] == mine[..i];
        if n >= mine[i].lower && n <= mine[i].upper {
          r := r + [(n, d)];
        }
      }
      assert mine[..|mine|] == mine;
    }

    method UpdateToMove(removed: seq<(nat, string)>)
      requires Sized(View()) && ChunksInRange(removed)
      modifies this`toMove, this`moveQueue
      ensures View() == MarkMoves(old(View()), removed)
    {
      ghost var before := View();
      for i := 0 to |removed|
        invariant View() == MarkMoves(before, removed[..i])
      {
        assert removed[..i + 1][..i] == removed[..i];
        var (curShard, vsAddr) := removed[i];
        if configNum > toMove[curShard].1 {
          toMove := toMove[curShard := (vsAddr, configNum)];
          ghost var queued, marked := moveQueue, toMove;
          var keys := modMap[curShard];
          while keys != {}
            invariant toMove == marked && keys <= modMap[curShard]
            invariant moveQueue == queued + multiset(modMap[curShard] - keys)
          {
            var key :| key in keys;
            moveQueue := moveQueue + multiset{key};
            keys := keys - {key};
          }
        }
      }
      assert removed[..|removed|] == removed;
    }

    /** `fetchSMConfig`, given the two replies. */
    method FetchSMConfig(num: nat, newConfig: Config)
      requires Sized(View()) && ChunksInRange(Diff(newConfig, myConfig))
      modifies this`config, this`myConfig, this`configNum, this`toMove, this`moveQueue
      ensures View() == if old(configNum) < num then Adopt(old(View()), num, newConfig) else old(View())
    {
      if configNum < num {
        configNum := num;
        config := [];
        var prev := myConfig;
        for e := 0 to |newConfig|
          invariant config == newConfig[..e] && myConfig == MyEntry(newConfig[..e], addr, prev)
          invariant View() == old(View()).(configNum := num, config := config, myConfig := myConfig)
        {
          assert newConfig[..e + 1][..e] == newConfig[..e];
          if addr == newConfig[e].addr {
            myConfig := newConfig[e];
          }
          config := config + [newConfig[e]];
        }
        assert newConfig[..|newConfig|] == newConfig;
        var removed := CalcNegativeDiff(prev);
        UpdateToMove(removed);
      }
    }

    /** One iteration of `moveKeys`, for what `try_dequeue` returned. */
    method MoveKey(dequeued: Option<string>) returns (transfer: Option<(string, string)>)
      requires Sized(View()) && (dequeued.Some? ==> dequeued.value in moveQueue)
      modifies this`moveQueue
      ensures dequeued.None? ==> View() == old(View()) && transfer == None
      ensures dequeued.Some? ==> (View(), transfer) == TakeKey(hash, old(View()), dequeued.value)
    {
      if dequeued.None? {
        return None;
      }
      var key := dequeued.value;
      moveQueue := moveQueue - multiset{key};
      if key !in db {
        moveQueue := moveQueue + multiset{key};
        return None;
      }
      return Some((toMove[ChunkOf(hash, key)].0, db[key]));
    }

    /** The rest of the job that `moveKeys` hands to the thread pool, once Put has answered. */
    method FinishTransfer(key: string, ok: bool)
      requires Sized(View())
      modifies this`db, this`modMap, this`moveQueue
      ensures View() == EndTransfer(hash, old(View()), key, ok)
    {
      if ok {
        db := db - {key};
        var shardMod := ChunkOf(hash, key);
        modMap := modMap[shardMod := modMap[shardMod] - {key}];
      } else {
        moveQueue := moveQueue + multiset{key};
      }
    }
  }
}
