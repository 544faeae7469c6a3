# A verified model of the sharded key-value store

The repository is a key-value store split into chunks 0..1000. A shard master assigns chunk intervals to volume
servers and numbers its configurations. Volume servers poll the master, work out which chunks they lost, queue the
keys that are now in the wrong place and move each of them with "Put at the destination, then delete here, otherwise
queue again". Clients cache the configuration and route a key by the MD5 of its text. The move queue is the lock-free
`moodycamel::ConcurrentQueue` that is vendored with the store.

The project has three parts.

- **The store.** `Shards`, `ShardMasters`, `VolumeServers` and `Clients` hold each component: its handlers as
  functions on values, classes whose loops are proved to compute those functions, and the laws of each component.
  `Store` puts a master, any number of servers, any number of clients and any number of transfers in flight into one
  state machine whose steps interleave freely. `StoreSafety`, `StoreConservation` and `StoreMigration` prove what every
  run of it keeps; `StoreAnswers` proves what its operations achieve from every reachable state.
- **The concurrent machinery.** `FreeLists`, `Tickets`, `BlockIndices`, `Semaphores` and `BlockingQueues` model the
  vendored library with any number of threads, one access to shared memory per step; accesses to what no other
  thread can reach yet, or to what only the same thread writes, are part of the next shared one. `BlockIndices` has
  one producer, whose key, tail, value and index stores are separate steps, and any number of consumers, whose loads
  of the index, its tail and the key at the tail are separate steps. `Modular` and `Sums` are the arithmetic and the
  counting they share.
- **The hash.** `Md5` proves that the incremental context is the one-shot definition in sections 3.1 to 3.5 of
  RFC 1321; `HashText` follows the hexadecimal text to the chunk number.

A run is a sequence of steps from the initial state; a step that is not enabled leaves the state as it is, so the
theorems about runs quantify over every finite sequence of steps. Fields described as records (`history`, `written`,
`log`, `fates`, `slots`, `homes`, `number`, `shift`, `signalled`, `acquired`, `enqueued`, `delivered`, and so on) let
the theorems speak about the past. Steps consult them in three ways only: bounds guards, which are proved to hold in
every reachable state (`FreeLists.ListIsSound`, `Tickets.AccessesInBounds`, `BlockIndices.LookupNeverStuck`,
`BlockIndices.InsertNeverStuck`, `StoreSafety.AdoptNeverOutOfRange`); `acquired`, from which the blocking queue reads
what a semaphore step granted; and `status` and `live`, which say what callers may do: add a node that is out of the
free list, look up a block that is live.

## What the model takes as given

- Each handler, and each part of a poll or of a transfer between two remote calls, is one atomic step. The code is
  laxer in several places. Join and Move look the address up before taking the mutex
  (`server/shard_master/shard_master.cc:33-43`, `:77-82`). Join and Leave release the mutex between editing the
  configuration and redistributing (`:87-91`, `:100-111`), so a Query in that window can see a configuration that is
  not a partition, under the old number. QueryConfigNum reads the number without the mutex (`:26`). Put and Delete
  test ownership and presence before storing without a lock (`server/volume_server/volume_server.cc:28-46`, `:54-72`),
  and a poll changes `my_config` without one (`:156-177`).
- The number and the configuration are fetched in two steps, with anything in between; so are the destination's Put
  and the source's delete, and the reply to the Put may be lost.
- In `Store`, the master receives only requests that keep its configuration a partition: moves of a proper interval
  within 0..1000, and joins up to 1000 servers. The handlers do not enforce either.
  `ShardMasters.HandleKeepsGood` proves that these are exactly the requests that keep it, and
  `ShardMasters.ReversedMoveBreaksPartition` shows a request that the handler accepts and that breaks it.
- The second remote call of a server's poll succeeds. Line 149 of `server/volume_server/volume_server.cc` asserts the
  status of the first call instead.
- `mod_map.clear()` at line 80 of `server/volume_server/volume_server.cc` is read as emptying each of the 1001 sets;
  read literally it would undo the resize in the constructor and the next line would index an empty vector.
- LevelDB is a map whose operations succeed. `config_num` does not wrap.
- Servers start with an empty database and an address that is not in use.
- Atomic accesses are sequentially consistent.
- The MD5 block function and, in the store, the hash of a key are arbitrary functions.

## Model

| member | source | states |
|---|---|---|
| Shards.Subtract | utils/utils.h:14-47 | At most two pieces; two only when the subtracted interval lies strictly inside; no bound leaves 32 bits and the final `assert(false)` is unreachable, for all 32-bit operands |
| Shards.SubtractExact | utils/utils.h:14-47 | The pieces are the exact set difference: each chunk of the difference lies in exactly one piece, no other chunk in any, and pieces of a proper interval are proper |
| Shards.ReversedSubtract | utils/utils.h:14-47 | What happens with a reversed second operand: nothing is removed, and exactly the chunks strictly between its ends come out twice when the shard spans it |
| Shards.ReversedMoveDuplicates | server/shard_master/shard_master.cc:50-69 | From a partition, a reversed move leaves a chunk in two shards if and only if one shard contained both ends of the range and the chunk lies strictly between them; every other chunk stays in exactly one |
| Shards.ReversedMoveKeepsOwner | server/shard_master/shard_master.cc:50-69 | A reversed move gives no chunk a new owner, in any configuration |
| Shards.MoveCoverageIff | server/shard_master/shard_master.cc:45-69 | From a partition, a move with any 32-bit ends leaves every chunk in exactly one shard if and only if the range is not reversed or no shard spans it |
| Shards.PartitionMeans | server/shard_master/shard_master.cc:119-136 | The counting definition of a partition means: every chunk 0..1000 is owned, no chunk by two entries, no two shards of an entry overlap, nothing above 1000 is covered |
| Shards.OwnerIsEntry | client/client.cc:179-185 | In a partition the first entry that matches a chunk is the only one, so the client's first-match rule finds it |
| Shards.OwnerMeans | client/client.cc:179-187 | In any configuration the owner is the first entry that covers the chunk, and there is none exactly when no entry does |
| Shards.MoveOverridesOwner | server/shard_master/shard_master.cc:50-69 | The interval-splitting loop is a map override: chunks of the moved range belong to the target, every other chunk keeps its owner |
| Shards.MoveKeepsPartition | server/shard_master/shard_master.cc:50-69 | A move of a proper interval keeps the partition and the distinctness of addresses |
| Shards.MovePartitionIff | server/shard_master/shard_master.cc:45-69 | From a partition, a move leaves proper shards and each chunk in exactly one if and only if lower <= upper <= 1000; the handler does not test it |
| Shards.MoveFragmentation | server/shard_master/shard_master.cc:51-67 | A move adds at most two shards in total, because at most one existing shard contains the low end of the range |
| ShardMasters.RedistributionPartitions | server/shard_master/shard_master.cc:119-136 | Redistribution to 1..1000 servers yields a partition, whatever the shards were before |
| ShardMasters.RedistributionIff | server/shard_master/shard_master.cc:119-136 | With the unsigned wrap-around modelled, redistribution yields a partition if and only if there are at most 1000 servers |
| ShardMasters.ShareSizes | server/shard_master/shard_master.cc:123-134 | The first n-1 servers receive 1000/n chunks each and the last 1000/n + 1000%n + 1 |
| ShardMasters.HandleKeepsGood | server/shard_master/shard_master.cc:30-136 | For any request: refused means unchanged, accepted means the number grows by one, addresses stay distinct, and the partition survives if and only if the request is legal |
| ShardMasters.ReversedMoveBreaksPartition | server/shard_master/shard_master.cc:45-69 | Concrete input: after one Join, Move of the range 7..3 is accepted and chunk 5 lies in two shards |
| ShardMasters.HandleRegisters | server/shard_master/shard_master.cc:30-117 | Who is registered after each request, both directions |
| ShardMasters.HandleAnswers | server/shard_master/shard_master.cc:30-117 | For any request, which status is answered when, and what happens to the order of the servers: a join goes to the end, a leave closes the gap, a move changes no position |
| ShardMasters.SharesInOrder | server/shard_master/shard_master.cc:119-136 | After an accepted join or leave, server i of n has one shard, which starts at i * (1000 / n) and ends just before the next server's; the last ends at 1000 |
| ShardMasters.PartitionInEveryRun | server/shard_master/shard_master.cc:30-136 | After every legal sequence of joins, leaves and moves, addresses are distinct and, while a server is registered, shards are proper, disjoint and cover exactly 0..1000 |
| ShardMasters.FragmentationBound | server/shard_master/shard_master.cc:51-67 | After a redistribution to n servers and k moves there are at most n + 2k shards |
| ShardMasters.ShardMaster.constructor | server/shard_master/shard_master.h:35-36 | Starts with no entries at number 0 |
| ShardMasters.ShardMaster.Query | server/shard_master/shard_master.cc:3-22 | The copying loops return exactly the configuration |
| ShardMasters.ShardMaster.QueryConfigNum | server/shard_master/shard_master.cc:24-28 | Returns the number |
| ShardMasters.ShardMaster.Exists | server/shard_master/shard_master.cc:33-39 | The scan finds an address if and only if it is registered |
| ShardMasters.ShardMaster.Move | server/shard_master/shard_master.cc:30-72 | The nested loops compute the specified override, or refuse and change nothing |
| ShardMasters.ShardMaster.Join | server/shard_master/shard_master.cc:74-94 | Refuses a registered address, otherwise appends it and redistributes |
| ShardMasters.ShardMaster.Leave | server/shard_master/shard_master.cc:96-117 | Removes the first matching entry and redistributes, or refuses |
| ShardMasters.ShardMaster.RedistributeChunks | server/shard_master/shard_master.cc:119-136 | The in-place loop gives server i of n its share and raises the number by one |
| VolumeServers.StoredKeepsIndex | server/volume_server/volume_server.cc:38-46 | Storing a key keeps `mod_map[c]` equal to the set of stored keys of chunk c, for every c |
| VolumeServers.DroppedKeepsIndex | server/volume_server/volume_server.cc:64-72 | So does deleting a key |
| VolumeServers.PutAnswers | server/volume_server/volume_server.cc:25-49 | For any key: which status is answered when; a refusal changes nothing; success adds exactly this key with this value and keeps every other |
| VolumeServers.DeleteAnswers | server/volume_server/volume_server.cc:51-75 | For any key: which status is answered when; a refusal changes nothing; success removes exactly this key |
| VolumeServers.DeleteUndoesPut | server/volume_server/volume_server.cc:25-75 | A Delete after a Put that stored restores the server, index included |
| VolumeServers.PutUndoesDelete | server/volume_server/volume_server.cc:25-75 | A Put of the old value after a Delete that removed restores the server, index included |
| VolumeServers.DiffCount | server/volume_server/volume_server.cc:109-128 | For any configuration and entry, the exact multiplicity of every (chunk, address) pair in the difference: the sum over entries of hits before times hits now |
| VolumeServers.DiffExact | server/volume_server/volume_server.cc:109-128 | On a configuration from the master, (c, d) is listed exactly once if c was owned before and its owner is now d, another server; otherwise never |
| VolumeServers.DiffMember | server/volume_server/volume_server.cc:109-128 | Membership in the difference, both directions, including the empty configuration |
| VolumeServers.DiffFacts | server/volume_server/volume_server.cc:109-128 | Every listed chunk is at most 1000 and no chunk is listed twice, so every index of `updateToMove` is in bounds |
| VolumeServers.MarkMovesExact | server/volume_server/volume_server.cc:203-221 | Each listed chunk gets (destination, current number), other chunks keep theirs, and exactly the stored keys of listed chunks are enqueued, once each |
| VolumeServers.MarkMovesStale | server/volume_server/volume_server.cc:208-211 | A chunk whose destination was recorded at this number or later keeps it; if all are such, nothing changes |
| VolumeServers.MyEntryMeans | server/volume_server/volume_server.cc:161-177 | With distinct addresses, `my_config` becomes this server's entry, or keeps the previous one if the server is not in the configuration |
| VolumeServers.TakeAnswers | server/volume_server/volume_server.cc:226-247 | A stored key leaves the queue once, bound for the destination recorded for its own chunk with its own value; a key not stored stays queued |
| VolumeServers.EndAnswers | server/volume_server/volume_server.cc:260-272 | After success the key is gone and not queued again; after failure it is kept and queued once more; other keys are untouched |
| VolumeServers.VolumeServer.constructor | server/volume_server/volume_server.h:49-57 | A fresh server whose index agrees with the database it was given |
| VolumeServers.VolumeServer.FormModMap | server/volume_server/volume_server.cc:77-90 | The rebuild loop makes the index agree with the database |
| VolumeServers.VolumeServer.IsMyKey | server/volume_server/volume_server.cc:190-201 | True if and only if a shard of `my_config` contains the key's chunk |
| VolumeServers.VolumeServer.Get | server/volume_server/volume_server.cc:3-23 | Status and value in each of the three cases |
| VolumeServers.VolumeServer.Put | server/volume_server/volume_server.cc:25-49 | Refusals change nothing; success stores the value and indexes the key |
| VolumeServers.VolumeServer.Delete | server/volume_server/volume_server.cc:51-75 | Refusals change nothing; success removes the key and its index entry |
| VolumeServers.VolumeServer.CalcNegativeDiff | server/volume_server/volume_server.cc:109-128 | The nested loops compute the specified difference |
| VolumeServers.VolumeServer.UpdateToMove | server/volume_server/volume_server.cc:203-221 | The loops record destinations and enqueue keys as specified, touching nothing else |
| VolumeServers.VolumeServer.FetchSMConfig | server/volume_server/volume_server.cc:144-187 | Adopts a configuration only under a higher number, otherwise changes nothing |
| VolumeServers.VolumeServer.MoveKey | server/volume_server/volume_server.cc:226-247 | Nothing dequeued changes nothing; otherwise the step that `TakeAnswers` describes |
| VolumeServers.VolumeServer.FinishTransfer | server/volume_server/volume_server.cc:260-272 | The end of a transfer that `EndAnswers` describes |
| Clients.Client.constructor | client/client.cc:26 | An empty cache labelled 0 |
| Clients.Client.Query | client/client.cc:97-128 | When the number is not newer or did not arrive, nothing changes; when it is, the cache is the number and the configuration of the second reply, or empty and 0 if that call failed; and exactly when each status is returned |
| Clients.Client.GetVSAddr | client/client.cc:170-188 | The owner of the key's chunk in the cached configuration, or the empty string if there is none |
| StoreSafety.AdoptKeeps | server/volume_server/volume_server.cc:130-221 | Adopting any configuration of the master's history at or after the fetched number keeps every server invariant and queues every key it strands |
| StoreSafety.NextKeepsInv | server/volume_server/volume_server.cc:3-275 | Every step of master, servers, clients and transfers keeps the store's invariant |
| StoreSafety.InvInEveryRun | server/volume_server/volume_server.cc:3-275 | The invariant holds in every reachable state |
| StoreSafety.IndexAgreesInEveryRun | server/volume_server/volume_server.cc:38-90 | In every reachable state, on every server, `mod_map[c]` is exactly the set of stored keys of chunk c |
| StoreSafety.NoStrandedKeyForgotten | server/volume_server/volume_server.cc:203-275 | In every reachable state a stored key whose chunk the server does not own is in its queue or in a running transfer from it |
| StoreSafety.AdoptNeverOutOfRange | server/volume_server/volume_server.cc:203-213 | In every reachable state a fetched configuration can be adopted without indexing past chunk 1000 |
| StoreSafety.CachesCorrectInEveryRun | client/client.cc:97-128 | Whatever the master does between the two calls, every cached configuration of a server or client was current at its label or later, and one labelled with the master's number is the master's |
| StoreSafety.UniqueRouting | client/client.cc:170-188 | With the client and the registered servers at the master's number, exactly one registered server accepts a key, and it is the one the client contacts |
| StoreSafety.DepartedNeverContacted | server/shard_master/shard_master.cc:96-117 | After a server has left, and in every run until it joins again, no client at the master's number contacts it, for any key |
| StoreMigration.NextKeepsRoutes | server/volume_server/volume_server.cc:203-275 | Every step keeps: recorded destinations are other servers that own the chunk in a configuration of the recorded number or later, queued keys have one, and so has every transfer |
| StoreMigration.TransfersGoToOwners | server/volume_server/volume_server.cc:240-247 | In every run each transfer goes to another server, one that some configuration of the master made the owner of the key's chunk |
| StoreAnswers.QueryRefreshes | client/client.cc:97-128 | A query of a client that is behind: whatever happens between its two calls, the label is the number of the first and the mappings are the master's configuration at the second; if the second fails the cache is empty at 0 |
| StoreAnswers.QueryCatchesUp | client/client.cc:97-128 | From every reachable state a query without failure leaves the client with exactly the master's number and configuration |
| StoreAnswers.PollRefreshes | server/volume_server/volume_server.cc:130-187 | A poll of a server that is behind: whatever happens between its parts, it ends at the number of the first call with the master's configuration at the second |
| StoreAnswers.PollCatchesUp | server/volume_server/volume_server.cc:130-187 | From every reachable state an undisturbed poll leaves the server with exactly the master's number and configuration |
| StoreAnswers.ServerStarts | server/volume_server/volume_server.cc:92-107 | A server that starts is registered, empty and at number 0, and changes no other server |
| StoreAnswers.TransferMovesKey | server/volume_server/volume_server.cc:226-272 | From every reachable state: a transfer whose destination owns the chunk and lacks the key moves the key there with its value, off the source and once off its queue, and changes nothing else anywhere |
| StoreAnswers.TransferRefused | server/volume_server/volume_server.cc:226-272 | From every reachable state: a transfer that the destination refuses leaves everything as it was |
| StoreAnswers.TransferLost | server/volume_server/volume_server.cc:226-272 | A transfer whose Put never arrives leaves everything as it was |
| StoreAnswers.RoutedRequestsWork | server/volume_server/volume_server.cc:25-75 | With client and servers caught up, a Put sent where the client routes it leaves the key stored there, with this value or the one it had, and a Delete sent there removes it |
| StoreConservation.DeliverConserves | server/volume_server/volume_server.cc:25-49 | A Put at the destination, refused, accepted, or accepted with its reply lost, keeps holders at least 1 + accepted transfers not ended |
| StoreConservation.FinishConserves | server/volume_server/volume_server.cc:260-272 | So does the source's delete, or its re-queueing |
| StoreConservation.DequeueConserves | server/volume_server/volume_server.cc:226-247 | So does taking a key from the queue |
| StoreConservation.NextConserves | server/volume_server/volume_server.cc:25-275 | Every step but a client's Delete of k keeps k conserved |
| StoreConservation.ConservedInEveryRun | server/volume_server/volume_server.cc:25-275 | In every run without a Delete of k, k is nowhere at all or safely held |
| StoreConservation.KeyNeverLost | server/volume_server/volume_server.cc:25-275 | In such a run, once k is stored, at every later point the servers holding k number at least 1 plus its transfers that the destination accepted, heard of or not, and the source has not ended yet |
| StoreConservation.GenuineInEveryRun | server/volume_server/volume_server.cc:223-275 | In every run each stored or travelling value is one that a client successfully put under that key |
| FreeLists.PopStep | utils/concurrentqueue-1.0.3/concurrentqueue.h:1466-1469 | The successful compare-and-swap of `try_get` keeps the invariant and takes a listed, unflagged node, and the next pointer it installs is still the node's |
| FreeLists.TakenNodeUnflagged | utils/concurrentqueue-1.0.3/concurrentqueue.h:1470-1475 | In every run, at every moment between the swap and the decrement, the flag of the taken node is clear, as the source asserts there, and the node is off the list |
| FreeLists.NextKeepsInv | utils/concurrentqueue-1.0.3/concurrentqueue.h:1438-1517 | Every atomic access of `add` and `try_get` keeps the free-list invariant, with exact 32-bit reference counts |
| FreeLists.InvInEveryRun | utils/concurrentqueue-1.0.3/concurrentqueue.h:1416-1529 | The invariant holds in every run, for any number of nodes and any threads whose references fit the 31-bit count |
| FreeLists.NoDoubleHandOut | utils/concurrentqueue-1.0.3/concurrentqueue.h:1438-1489 | In every run the last event about a node before each hand-out of it is an `add` |
| FreeLists.ListIsSound | utils/concurrentqueue-1.0.3/concurrentqueue.h:1495-1521 | In every run the head pointer and next pointers form a finite chain without repetition, a node in a thread's hands is the one that thread works on, and no thread holds a bad pointer |
| FreeLists.FlaggedNodeHasKeeper | utils/concurrentqueue-1.0.3/concurrentqueue.h:1438-1517 | A node with SHOULD_BE_ON_FREELIST set always has a reference holder or an adder |
| FreeLists.NextStableWhileHeld | utils/concurrentqueue-1.0.3/concurrentqueue.h:1466-1469 | While any thread holds a reference to a node, no step of any thread changes its next pointer |
| FreeLists.GivesUpOnNull | utils/concurrentqueue-1.0.3/concurrentqueue.h:1457-1464 | `try_get` gives up exactly when the head it loaded last is null |
| FreeLists.FailedSwapRetries | utils/concurrentqueue-1.0.3/concurrentqueue.h:1461-1514 | Every swap that fails is tried again from the value it found |
| FreeLists.GetFrom | utils/concurrentqueue-1.0.3/concurrentqueue.h:1452-1489 | When no other operation is running, `try_get` hands out the first node of the list, and returns null exactly when the list is empty |
| FreeLists.AddFrom | utils/concurrentqueue-1.0.3/concurrentqueue.h:1438-1517 | When no other operation is running, `add` puts the node at the head of the list |
| FreeLists.LastInFirstOut | utils/concurrentqueue-1.0.3/concurrentqueue.h:1438-1517 | From every reachable state in which no operation is running, a node added is the one the next `try_get` hands out, and the list is then as before |
| Tickets.CircularLessIsLess | utils/concurrentqueue-1.0.3/concurrentqueue.h:469-480 | For residues of any two numbers: true is right unless the first is more than 2^63 ahead, false is right unless it is 2^63 or more behind |
| Tickets.ClaimsWithinTail | utils/concurrentqueue-1.0.3/concurrentqueue.h:2541-2547 | If each claimed ticket was below the tail once earlier failures are discounted, the claims do not exceed the tail |
| Tickets.NextKeepsInv | utils/concurrentqueue-1.0.3/concurrentqueue.h:2471-2604 | Every atomic access of `enqueue` and `dequeue` keeps the invariant |
| Tickets.InvInEveryRun | utils/concurrentqueue-1.0.3/concurrentqueue.h:2471-2604 | The invariant holds in every run with any number of consumers, with counters that wrap at 2^64 any number of times |
| Tickets.ClaimsNeverPassTail | utils/concurrentqueue-1.0.3/concurrentqueue.h:2535-2604 | In every run, indices handed out plus successful claims not yet turned into an index are at most the published tail |
| Tickets.QueueSizeBounded | utils/concurrentqueue-1.0.3/concurrentqueue.h:2476-2482 | In every run the source's test keeps the queue shorter than 2^63, and its assertion that the tail is not behind the head holds of the wrapped counters |
| Tickets.DeliveredOnce | utils/concurrentqueue-1.0.3/concurrentqueue.h:2535-2604 | In every run deliveries plus consumers still reading equal the indices handed out; each index handed out is either delivered, once, with the item written there, or being read by exactly one consumer; items are read from cells of blocks that are freed and used again |
| Tickets.ComparisonsAnswer | utils/concurrentqueue-1.0.3/concurrentqueue.h:2541-2546 | Within the windows of the circular comparison, a consumer turns away at the first comparison exactly when the tickets out, less the failures it loaded, reach the tail it loaded, and claims at the second exactly when its ticket is below the tail |
| Tickets.DequeueAnswers | utils/concurrentqueue-1.0.3/concurrentqueue.h:2535-2604 | From every reachable state in which nobody else is dequeuing, a dequeue receives the item at the head if there is one, and otherwise returns with everything as it was |
| Tickets.GivesBack | utils/concurrentqueue-1.0.3/concurrentqueue.h:2580-2594 | After its item a consumer is idle in one access, or in three if it emptied the block, which is then in the pool and out of the index |
| Tickets.EnqueueAnswers | utils/concurrentqueue-1.0.3/concurrentqueue.h:2471-2533 | From every reachable state between items, an enqueue appends its item and publishes it, taking a free or new block first if the last one is full |
| Tickets.RoomIff | utils/concurrentqueue-1.0.3/concurrentqueue.h:2480 | In every run the source's test finds room exactly when the queue with a new block is shorter than 2^63 |
| Tickets.AccessesInBounds | utils/concurrentqueue-1.0.3/concurrentqueue.h:2547-2554 | In every run a consumer finds the block of its index and an item in its cell, and the counter of the block is below BLOCK_SIZE when `set_empty` raises it |
| Tickets.BusyBlockIsLive | utils/concurrentqueue-1.0.3/concurrentqueue.h:1575-1590 | A block with an index unclaimed, being read or being emptied is in the index, has a counter below BLOCK_SIZE and has not been freed |
| Tickets.BlocksFreedOnce | utils/concurrentqueue-1.0.3/concurrentqueue.h:2580-2593 | In every run a block is freed at most once, only when its 32 indices are done, never under a consumer; a block whose indices are done is freed or in the hands of the consumer that will free it; no block in a consumer's hands is in the pool |
| BlockIndices.SlotArithmetic | utils/concurrentqueue-1.0.3/concurrentqueue.h:2931-2947 | Although the signed quotient is evaluated unsigned, the slot is the tail slot minus the distance in blocks, because the capacity divides 2^64 / BLOCK_SIZE |
| BlockIndices.FullCircle | utils/concurrentqueue-1.0.3/concurrentqueue.h:2965-2974 | When the next slot is occupied, the slots from there on hold the last `capacity` block numbers in order |
| BlockIndices.GrownKeepsInv | utils/concurrentqueue-1.0.3/concurrentqueue.h:2949-2991 | Publishing a doubled index keeps the invariant, even if the slot found occupied was vacated meanwhile, and the slot after the new tail is free, as line 2912 asserts |
| BlockIndices.LiveFound | utils/concurrentqueue-1.0.3/concurrentqueue.h:2924-2947 | A lookup made in one instant finds the entry and the block of any live block, for any 64-bit element index of it |
| BlockIndices.NextKeepsInv | utils/concurrentqueue-1.0.3/concurrentqueue.h:2885-2991 | Each store of an insertion, each publication of an index, each load of a lookup and each free keeps the invariant |
| BlockIndices.InvInEveryRun | utils/concurrentqueue-1.0.3/concurrentqueue.h:2870-2991 | The invariant holds in every interleaving of them, with any number of consumers |
| BlockIndices.LookupCorrectInEveryRun | utils/concurrentqueue-1.0.3/concurrentqueue.h:2931-2947 | In every run, whatever happens between a lookup's three loads, it arrives at the entry keyed with the base of the live block it was for, and the entry holds that block |
| BlockIndices.LookupNeverStuck | utils/concurrentqueue-1.0.3/concurrentqueue.h:2936-2945 | In every run a lookup can take its next load, and the key it loads at the tail is not the invalid one, as line 2940 asserts |
| BlockIndices.StaleLookup | utils/concurrentqueue-1.0.3/concurrentqueue.h:2936-2946 | From any index that has an entry for the block, current or superseded, and any tail slot with a key, loaded now or earlier and re-keyed since, the computed slot is the block's |
| BlockIndices.TailNumbered | utils/concurrentqueue-1.0.3/concurrentqueue.h:2937-2940 | While a block is live the current index has an entry for it and its tail slot has a key, even between the key store and the tail store |
| BlockIndices.LiveEntryStable | utils/concurrentqueue-1.0.3/concurrentqueue.h:2885-2916 | No step re-keys or clears the entry of a live block other than its own free |
| BlockIndices.InsertTakesEffect | utils/concurrentqueue-1.0.3/concurrentqueue.h:2885-2916 | The steps of one insertion make the block live under the next number, doubling if they must |
| BlockIndices.InsertNeverStuck | utils/concurrentqueue-1.0.3/concurrentqueue.h:2885-2916 | In every run the producer can take its next step, up to a capacity of 2^59 |
| BlockIndices.LookupAnswers | utils/concurrentqueue-1.0.3/concurrentqueue.h:2924-2947 | From every state of the invariant an undisturbed lookup arrives at the entry that holds the block |
| BlockIndices.BeginAnswers | utils/concurrentqueue-1.0.3/concurrentqueue.h:2892-2908 | The producer doubles the index exactly when the entry it would reuse still holds a live block |
| BlockIndices.FreeTakesEffect | utils/concurrentqueue-1.0.3/concurrentqueue.h:2584-2592 | A free ends the block's life, leaves its entry reusable and changes nothing else |
| BlockIndices.BlockIndex.constructor | utils/concurrentqueue-1.0.3/concurrentqueue.h:2949-2991 | The first index: 32 free entries, the tail just before slot 0 |
| BlockIndices.BlockIndex.NewBlockIndex | utils/concurrentqueue-1.0.3/concurrentqueue.h:2949-2991 | The copying loop stops after exactly one circle and yields the rotated slots followed by fresh entries |
| BlockIndices.BlockIndex.StoreEntry | utils/concurrentqueue-1.0.3/concurrentqueue.h:2892-2900 | The stores into the next slot's entry |
| BlockIndices.BlockIndex.Insert | utils/concurrentqueue-1.0.3/concurrentqueue.h:2885-2916 | Performs exactly the steps of one insertion, doubling when the next slot is occupied, and keeps the invariant |
| Semaphores.StepsBalance | utils/concurrentqueue-1.0.3/lightweightsemaphore.h:262-402 | Every atomic access changes both accounts by amounts that cancel |
| Semaphores.NextKeepsInv | utils/concurrentqueue-1.0.3/lightweightsemaphore.h:262-402 | Every step keeps both accounts |
| Semaphores.AccountingInEveryRun | utils/concurrentqueue-1.0.3/lightweightsemaphore.h:262-402 | In every run: blocked waiters = permits + unposted releases + max(0, -count), and acquired = initial + signalled - max(0, count) - permits - unposted releases |
| Semaphores.NeverOverAcquired | utils/concurrentqueue-1.0.3/lightweightsemaphore.h:341-402 | In every run no more is acquired than was given |
| Semaphores.TimedOutWaiterHasPermit | utils/concurrentqueue-1.0.3/lightweightsemaphore.h:288-295 | In every run a waiter that gave up and finds the count not negative has a permit present or on its way, one for each such waiter |
| Semaphores.NeverMoreThanAsked | utils/concurrentqueue-1.0.3/lightweightsemaphore.h:298-332 | In every run no wait, bulk or single, yields more than it asked for |
| Semaphores.WaitAnswers | utils/concurrentqueue-1.0.3/lightweightsemaphore.h:341-384 | Undisturbed: with something there any wait takes all of it up to what it asks for; with nothing, the one that does not block is done with nothing and the other goes to sleep with the count lowered by one |
| Semaphores.SpinAnswers | utils/concurrentqueue-1.0.3/lightweightsemaphore.h:303-313 | Undisturbed, a spinning waiter that finds something takes all of it up to what it wants |
| Semaphores.WakeAnswers | utils/concurrentqueue-1.0.3/lightweightsemaphore.h:314-331 | A sleeper that wakes has one permit, and a bulk wait then takes what more there is, up to what it still wants |
| Semaphores.GiveUpAnswers | utils/concurrentqueue-1.0.3/lightweightsemaphore.h:288-295 | A sleeper that gives up takes a permit if the count is not negative and one is there, and otherwise puts back the one it subtracted |
| Semaphores.SignalAnswers | utils/concurrentqueue-1.0.3/lightweightsemaphore.h:393-402 | A signal raises the count by n and posts one permit for each waiter that this serves |
| Semaphores.FailedSwapRetries | utils/concurrentqueue-1.0.3/lightweightsemaphore.h:344-373 | A swap that fails takes nothing and is tried again from a new load |
| BlockingQueues.SemBalance | utils/concurrentqueue-1.0.3/blockingconcurrentqueue.h:293-335 | A semaphore step changes the available permits by what it signals minus what it grants |
| BlockingQueues.NextKeepsInv | utils/concurrentqueue-1.0.3/blockingconcurrentqueue.h:123-186 | Every insertion, signal, semaphore access and removal keeps the accounts of the queue |
| BlockingQueues.InvInEveryRun | utils/concurrentqueue-1.0.3/blockingconcurrentqueue.h:123-335 | In every run the inner item count = available permits + permits taken and unspent + items not yet signalled |
| BlockingQueues.PermitHolderNeverStarves | utils/concurrentqueue-1.0.3/blockingconcurrentqueue.h:293-367 | In every run the inner queue holds at least as many items as any consumer holds unspent permits, so no retry loop faces an empty queue |
| BlockingQueues.ItemsConserved | utils/concurrentqueue-1.0.3/blockingconcurrentqueue.h:123-367 | In every run what was enqueued is what is inside plus what was delivered, as multisets |
| BlockingQueues.NeverMoreThanAsked | utils/concurrentqueue-1.0.3/blockingconcurrentqueue.h:326-335 | In every run a consumer holds no more permits than it asked for |
| BlockingQueues.EnqueueAnswers | utils/concurrentqueue-1.0.3/blockingconcurrentqueue.h:123-186 | An enqueue puts in all its items and raises the semaphore by their number |
| BlockingQueues.DequeueAnswers | utils/concurrentqueue-1.0.3/blockingconcurrentqueue.h:293-367 | Undisturbed, a dequeue gets as many permits as there are up to max; without any, the one that may not block gives up and the other sleeps |
| BlockingQueues.RemoveAnswers | utils/concurrentqueue-1.0.3/blockingconcurrentqueue.h:331-333 | A removal hands over exactly the items taken and spends a permit for each |
| Md5.PadLengthIsLeast | utils/md5.cc:270-273 | The padding is the shortest of at least one byte that brings the length to 56 modulo 64 |
| Md5.PaddedForm | utils/md5.cc:262-276 | The padded message of sections 3.1 and 3.2 of RFC 1321, byte by byte: the message, 0x80, as few zeros as fill whole blocks, and eight bytes that denote the length in bits modulo 2^64, low-order byte first |
| Md5.InitialBytes | utils/md5.cc:103-107 | The initial words are the sixteen bytes of section 3.3 of RFC 1321 |
| Md5.EncodedWords | utils/md5.cc:122-129 | Every word of an encoded array is its four bytes, low-order byte first |
| Md5.DigestWords | utils/md5.cc:278-279 | The digest is the four state words in order, each low-order byte first |
| Md5.FoldLastBlock | utils/md5.cc:236-245 | The fold does nothing without a block and applies the block function once more for one block more |
| Md5.FoldConcat | utils/md5.cc:236-250 | Folding the block function over a concatenation is folding over the first part, then over its rest and the second |
| Md5.UpdateKeepsConsistent | utils/md5.cc:223-229 | After an update the number of buffered bytes is still the bit count divided by 8, modulo 64, although the count wraps at 2^64 |
| Md5.StreamingConsistent | utils/md5.cc:271 | So it is after any list of chunks, which is how `finalize` finds its padding |
| Md5.UpdateTwice | utils/md5.cc:223-251 | Two updates leave the context of one update with the concatenation |
| Md5.StreamingIsOneShot | utils/md5.cc:223-251 | Any list of chunks leaves the state words, the bit count modulo 2^64 and the buffered tail of the whole message |
| Md5.FinalizeIsDigest | utils/md5.cc:262-289 | Finalizing after any list of chunks yields the digest of their concatenation as sections 3.1 to 3.5 of RFC 1321 define it |
| Md5.DecodeUndoesEncode | utils/md5.cc:114-129 | Decoding undoes encoding on every word array |
| Md5.Encode | utils/md5.cc:122-129 | The loop writes the low-order-first bytes of the words and nothing after them |
| Md5.Decode | utils/md5.cc:114-116 | The loop writes the words those bytes denote |
| Md5.MD5.constructor | utils/md5.cc:97-108 | The empty context with the RFC's initial words |
| Md5.MD5.CarryCorrect | utils/md5.cc:227-229 | The two 32-bit counters with the carry test add as one 64-bit counter modulo 2^64 |
| Md5.MD5.AddBits | utils/md5.cc:227-229 | The bit count grows by 8 times the length, modulo 2^64 |
| Md5.MD5.TransformBlocks | utils/md5.cc:243 | The loop folds the block function over the whole blocks from a position and stops at the last block boundary |
| Md5.MD5.Absorb | utils/md5.cc:231-250 | Filling, transforming and buffering fold the block function over the buffered tail and the input, and leave the rest in the buffer |
| Md5.LoopTestIff | utils/md5.cc:243 | For every 32-bit length and buffer position, the loop test is right at every block boundary if and only if the length is below 2^32 minus the position (minus 64 at position 0), because the sum in the test wraps |
| Md5.MD5.Update | utils/md5.cc:223-251 | One call is one update of the context, for every length that passes that condition |
| Md5.MD5.Close | utils/md5.cc:266-276 | The two closing updates: padding, then the bit count from before the padding, which `FinalizeIsDigest` and `PaddedForm` fix byte by byte |
| Md5.MD5.Finalize | utils/md5.cc:262-289 | The digest is that of the closed context, and buffer and counts are zeroed; a second call changes nothing |
| Md5.MD5.HexDigest | utils/md5.cc:294-302 | The hexadecimal text of the digest, or the empty text before finalization |
| Md5.HexTextLower | utils/md5.cc:298 | Every character of the text is a decimal digit or one of a to f |
| Md5.HexMd5 | utils/md5.cc:310-314 | The hexadecimal RFC 1321 digest of the text, of whose length only 32 bits arrive |
| HashText.ParseHexText | utils/utils.h:61-66 | Parsing the hexadecimal text of bytes consumes all of it and gives the number the bytes denote in base 256 |
| HashText.HexValueMeans | utils/utils.h:63 | Exactly the digits of either case have a value, and which |
| HashText.ParsePrefixLongest | utils/utils.h:63 | What is parsed of any text is its longest prefix of digits |
| HashText.HashOfDigest | utils/utils.h:61-70 | For every 16-byte digest no segment fails to parse, and the result is the exclusive or of its four words read high-order byte first |
| HashText.XorBit | utils/utils.h:68 | The bit of an exclusive or at any position is the parity of the operands' bits there |
| HashText.HashBits | utils/utils.h:61-70 | For every 16-byte digest and every position, the bit of the parsed hash is the parity of the four words' bits there |
| HashText.BitsDetermine | utils/utils.h:68 | The bits below position n determine a number below 2^n, so the statement above fixes the hash |
| HashText.KeyChunk | client/client.cc:172-177 | From the bytes of a key to its chunk: no parse fails, and the chunk is the exclusive or of the words of its RFC 1321 digest, modulo 1000 |

## Left out

- Eventual migration: `to_move` is not refreshed when a chunk passes between two other servers, so the code does not guarantee it.
- A single value per key while it migrates, and a deleted key staying deleted while a transfer of it is in flight: the code guarantees neither.
- A server restarted with keys on disk, or started again under an address already used; a server that left keeps its last `my_config`.
- The windows listed above in which the code is laxer than one step per handler, and torn reads of fields that it reads without a lock.
- VolumeServers.VolumeServer.CalcNegativeDiff: the chunk counter is unbounded; with an upper bound of 2^32 - 1 the source's 32-bit loop would not end. Configurations in reachable states of `Store` have no bound above 1000.
- VolumeServers.VolumeServer.UpdateToMove: needs its chunks to be at most 1000, where the source would index out of range; `DiffFacts` and `AdoptNeverOutOfRange` show that this holds in every reachable state.
- VolumeServers.VolumeServer.FetchSMConfig: the same bound on chunks; the failed first call, which ends the process, is not modelled.
- VolumeServers.VolumeServer.MoveKey: `move_queue` is a multiset, because the concurrent queue gives no order across producers.
- Md5.MD5.Update: lengths outside the condition of `LoopTestIff`, for which the source's loop runs past its input; the same for `Md5.HexMd5` and `HashText.KeyChunk`, which start at position 0.
- Md5.Decode: only a length that is a multiple of four, as the source assumes; the same for `Md5.Encode`.
- The 64 rounds of the MD5 block function.
- HashText.KeyChunk: keys are byte strings here and texts in the store; the store's theorems hold for every hash function, so the two are not joined. `std::stoul` is modelled on digits only, without leading space, sign or prefix, none of which `hexdigest` produces.
- FreeLists.InvInEveryRun: fewer than 2^31 - 2 threads, so that the 31-bit count cannot overflow; a node is added only by its owner, as the source requires.
- Tickets.InvInEveryRun: assumes of each second comparison of a consumer that its ticket, less the failures it discounts, is at most 2^63 past the tail, beyond which `circular_less_than` would misjudge (some 2^63 tickets would have to fail between the consumer's two comparisons); a block can always be allocated and MAX_SUBQUEUE_SIZE is unlimited, its default.
- BlockIndices.InsertTakesEffect: capacities up to 2^59, above which the slot arithmetic would fail; the same for `BlockIndices.InsertNeverStuck`.
- BlockIndices.LookupCorrectInEveryRun: consumers look up only live blocks, and a block is freed only when no other consumer is looking it up; `Tickets.BusyBlockIsLive` and `Tickets.BlocksFreedOnce` show that the dequeue protocol keeps this, and the two machines are not composed.
- Allocation failure, `rewind_block_index_tail`, exceptions, bulk operations of the implicit producer, explicit producers, the producer hash table, destructors, move and swap.
- Weak memory orders and fences.
- Semaphores.AccountingInEveryRun: the operating-system semaphore is a counter, and the narrowing of `toRelease` to `int` is not modelled.
- BlockingQueues.InvInEveryRun: the inner queue is a multiset from which a removal may take any part; an enqueue that fails does nothing and is not a step; consumer tokens are not distinguished.
- The thread pool, gRPC, protobuf, printing, the `main.cc` programs, the benchmarks and the C interface.
