/** Chunk intervals, their subtraction, and configurations as partitions of the chunks (utils/utils.h). */
module Shards {
  import opened Common
  import opened Sums

  const NUM_CHUNKS: nat := 1000

  datatype Shard = Shard(lower: uint32, upper: uint32)

  datatype Entry = Entry(addr: string, shards: seq<Shard>)

  type Config = seq<Entry>

  predicate InShard(c: int, s: Shard) {
    s.lower <= c <= s.upper
  }

  predicate Covers(shards: seq<Shard>, c: int) {
    exists i :: 0 <= i < |shards| && InShard(c, shards[i])
  }

  /** A shard the master may hand out: a non-empty interval of chunks 0..1000. */
  predicate InRange(s: Shard) {
    s.lower <= s.upper <= NUM_CHUNKS
  }

  /** `SMShard::subtract`. Building each piece as a `Shard` proves that no bound wraps, and the last
      branch proves that the final assertion of the source is never reached. */
  function Subtract(a: Shard, b: Shard): (r: seq<Shard>)
    ensures |r| <= 2
    ensures |r| == 2 ==> a.lower < b.lower && b.upper < a.upper
  {
    if a.upper < b.lower || b.upper < a.lower then [a]
    else if a.lower >= b.lower && a.upper <= b.upper then []
    else if a.lower < b.lower && a.upper > b.upper then
      [Shard(a.lower, b.lower - 1), Shard(b.upper + 1, a.upper)]
    else if a.lower < b.lower then [Shard(a.lower, b.lower - 1)]
    else if b.upper < a.upper then [Shard(b.upper + 1, a.upper)]
    else assert false; []
  }

  /** How many of the shards contain chunk c. */
  function Hit(c: int): Shard -> int {
    (s: Shard) => if InShard(c, s) then 1 else 0
  }

  function Hits(shards: seq<Shard>, c: int): int {
    Sum(shards, Hit(c))
  }

  function EntryHits(c: int): Entry -> int {
    (e: Entry) => Hits(e.shards, c)
  }

  function ConfigHits(config: Config, c: int): int {
    Sum(config, EntryHits(c))
  }

  predicate AllInRange(config: Config) {
    forall e, i :: 0 <= e < |config| && 0 <= i < |config[e].shards| ==> InRange(config[e].shards[i])
  }

  /** Every shard is a proper interval and every chunk of 0..1000 lies in exactly one shard. */
  ghost predicate Partition(config: Config) {
    AllInRange(config) && forall c: nat :: c <= NUM_CHUNKS ==> ConfigHits(config, c) == 1
  }

  ghost predicate DistinctAddrs(config: Config) {
    forall i, j :: 0 <= i < j < |config| ==> config[i].addr != config[j].addr
  }

  /** Some entry owns chunk c. */
  predicate Owned(config: Config, c: int) {
    exists e :: 0 <= e < |config| && Covers(config[e].shards, c)
  }

  predicate Registered(config: Config, addr: string) {
    exists i :: 0 <= i < |config| && config[i].addr == addr
  }

  lemma HitsCovers(shards: seq<Shard>, c: int)
    ensures 0 <= Hits(shards, c)
    ensures Covers(shards, c) <==> 0 < Hits(shards, c)
  {
    SumNonNegative(shards, Hit(c));
    if 0 < Hits(shards, c) {
      var i := SumPositive(shards, Hit(c));
      assert InShard(c, shards[i]);
    }
    if Covers(shards, c) {
      var i :| 0 <= i < |shards| && InShard(c, shards[i]);
      SumAtLeast(shards, i, Hit(c));
    }
  }

  lemma EntryHitsNonNegative(config: Config, c: int)
    ensures forall i :: 0 <= i < |config| ==> 0 <= EntryHits(c)(config[i])
  {
    forall i | 0 <= i < |config| ensures 0 <= EntryHits(c)(config[i]) {
      HitsCovers(config[i].shards, c);
    }
  }

  /** What the counting definition of a partition means: each chunk has one owning entry, and no two
      shards, in the same entry or in different ones, share a chunk. */
  lemma PartitionMeans(config: Config)
    requires Partition(config)
    ensures forall c: nat :: c <= NUM_CHUNKS ==> Owned(config, c)
    ensures forall e, f, c :: 0 <= e < f < |config| && Covers(config[e].shards, c) ==> !Covers(config[f].shards, c)
    ensures forall e, i, j, c :: (0 <= e < |config| && 0 <= i < j < |config[e].shards|
                                  && InShard(c, config[e].shards[i])) ==> !InShard(c, config[e].shards[j])
    ensures forall e, c :: 0 <= e < |config| && Covers(config[e].shards, c) ==> 0 <= c <= NUM_CHUNKS
  {
    forall c: nat | c <= NUM_CHUNKS ensures Owned(config, c) {
      assert ConfigHits(config, c) == 1;
      var e := SumPositive(config, EntryHits(c));
      HitsCovers(config[e].shards, c);
    }
    forall e, c | 0 <= e < |config| && Covers(config[e].shards, c) ensures 0 <= c <= NUM_CHUNKS {
      var i :| 0 <= i < |config[e].shards| && InShard(c, config[e].shards[i]);
      assert InRange(config[e].shards[i]);
    }
    forall e, f, c | 0 <= e < f < |config| && Covers(config[e].shards, c)
      ensures !Covers(config[f].shards, c)
    {
      assert ConfigHits(config, c) == 1;
      EntryHitsNonNegative(config, c);
      SumAtLeastTwo(config, e, f, EntryHits(c));
      HitsCovers(config[e].shards, c);
      HitsCovers(config[f].shards, c);
    }
    forall e, i, j, c | 0 <= e < |config| && 0 <= i < j < |config[e].shards| && InShard(c, config[e].shards[i])
      ensures !InShard(c, config[e].shards[j])
    {
      assert Covers(config[e].shards, c);
      OneHitPerEntry(config, e, c);
      SumAtLeastTwo(config[e].shards, i, j, Hit(c));
    }
  }

  lemma OneHitPerEntry(config: Config, e: nat, c: int)
    requires Partition(config) && e < |config|
    ensures Hits(config[e].shards, c) <= 1
    ensures Covers(config[e].shards, c) ==> Hits(config[e].shards, c) == 1 && 0 <= c <= NUM_CHUNKS
  {
    HitsCovers(config[e].shards, c);
    if Covers(config[e].shards, c) {
      var i :| 0 <= i < |config[e].shards| && InShard(c, config[e].shards[i]);
      assert InRange(config[e].shards[i]);
      assert ConfigHits(config, c) == 1;
      EntryHitsNonNegative(config, c);
      SumAtLeast(config, e, EntryHits(c));
    }
  }

  /** The address of the first entry covering chunk c: the routing rule of the client. */
  function Owner(config: Config, c: int): Option<string> {
    if config == [] then None
    else if Covers(config[0].shards, c) then Some(config[0].addr)
    else Owner(config[1..], c)
  }

  /** In a partition the first match is the only match. */
  lemma OwnerIsEntry(config: Config, e: nat, c: int)
    requires Partition(config) && e < |config| && Covers(config[e].shards, c)
    ensures Owner(config, c) == Some(config[e].addr)
  {
    PartitionMeans(config);
    FirstMatch(config, e, c);
  }

  lemma {:induction false} FirstMatch(config: Config, e: nat, c: int)
    requires e < |config| && Covers(config[e].shards, c)
    requires forall f :: 0 <= f < e ==> !Covers(config[f].shards, c)
    ensures Owner(config, c) == Some(config[e].addr)
  {
    if e > 0 {
      assert !Covers(config[0].shards, c);
      FirstMatch(config[1..], e - 1, c);
    }
  }

  predicate FirstCovers(config: Config, e: int, c: int) {
    0 <= e < |config| && Covers(config[e].shards, c) && forall f :: 0 <= f < e ==> !Covers(config[f].shards, c)
  }

  /** The owner is the first entry that covers the chunk, in any configuration; there is none only if no entry does. */
  lemma OwnerMeans(config: Config, c: int)
    ensures Owner(config, c).None? <==> !Owned(config, c)
    ensures forall e :: FirstCovers(config, e, c) ==> Owner(config, c) == Some(config[e].addr)
  {
    if !Owned(config, c) {
      NobodyOwns(config, c);
    } else {
      var e := FirstCovering(config, c);
      FirstMatch(config, e, c);
    }
    forall e | FirstCovers(config, e, c) ensures Owner(config, c) == Some(config[e].addr) {
      FirstMatch(config, e, c);
    }
  }

  lemma {:induction false} NobodyOwns(config: Config, c: int)
    requires forall e :: 0 <= e < |config| ==> !Covers(config[e].shards, c)
    ensures Owner(config, c).None?
  {
    if config != [] {
      assert !Covers(config[0].shards, c);
      NobodyOwns(config[1..], c);
    }
  }

  lemma {:induction false} FirstCovering(config: Config, c: int) returns (e: nat)
    requires Owned(config, c)
    ensures FirstCovers(config, e, c)
  {
    if Covers(config[0].shards, c) {
      e := 0;
    } else {
      var i :| 0 <= i < |config| && Covers(config[i].shards, c);
      assert Covers(config[1..][i - 1].shards, c);
      e := FirstCovering(config[1..], c);
      e := e + 1;
      forall f | 0 <= f < e ensures !Covers(config[f].shards, c) {
        assert f > 0 ==> config[f] == config[1..][f - 1];
      }
    }
  }

  lemma {:induction false} OwnerRegistered(config: Config, c: int)
    ensures Owner(config, c).Some? ==> Registered(config, Owner(config, c).value)
  {
    if config != [] && !Covers(config[0].shards, c) {
      OwnerRegistered(config[1..], c);
      if Owner(config, c).Some? {
        var i :| 0 <= i < |config[1..]| && config[1..][i].addr == Owner(config, c).value;
        assert config[i + 1].addr == Owner(config, c).value;
      }
    }
  }

  /** Subtraction is exact set difference into disjoint, proper pieces. */
  lemma SubtractExact(a: Shard, b: Shard, c: int)
    requires b.lower <= b.upper
    ensures Hits(Subtract(a, b), c) == if InShard(c, a) && !InShard(c, b) then 1 else 0
    ensures InRange(a) ==> forall i :: 0 <= i < |Subtract(a, b)| ==> InRange(Subtract(a, b)[i])
  {
    var r := Subtract(a, b);
    if |r| == 1 {
      assert r == [] + [r[0]];
      SumPush([], r[0], Hit(c));
    } else if |r| == 2 {
      assert r == [r[0]] + [r[1]];
      SumPush([r[0]], r[1], Hit(c));
      assert [r[0]] == [] + [r[0]];
      SumPush([], r[0], Hit(c));
    }
  }

  /** The shards an entry keeps when range m is taken away. */
  function Remnants(shards: seq<Shard>, m: Shard): seq<Shard> {
    if shards == [] then []
    else Remnants(shards[..|shards| - 1], m) + Subtract(shards[|shards| - 1], m)
  }

  function MovedEntry(e: Entry, target: string, m: Shard): Entry {
    Entry(e.addr, Remnants(e.shards, m) + if e.addr == target then [m] else [])
  }

  function Moved(config: Config, target: string, m: Shard): (r: Config)
    ensures |r| == |config|
    ensures forall i :: 0 <= i < |config| ==> r[i] == MovedEntry(config[i], target, m)
  {
    seq(|config|, i requires 0 <= i < |config| => MovedEntry(config[i], target, m))
  }

  lemma {:induction false} RemnantsHits(shards: seq<Shard>, m: Shard, c: int)
    requires m.lower <= m.upper
    ensures Hits(Remnants(shards, m), c) == if InShard(c, m) then 0 else Hits(shards, c)
  {
    if shards != [] {
      var init, last := shards[..|shards| - 1], shards[|shards| - 1];
      RemnantsHits(init, m, c);
      SubtractExact(last, m, c);
      SumConcat(Remnants(init, m), Subtract(last, m), Hit(c));
    }
  }

  lemma {:induction false} RemnantsInRange(shards: seq<Shard>, m: Shard)
    requires m.lower <= m.upper
    requires forall i :: 0 <= i < |shards| ==> InRange(shards[i])
    ensures forall i :: 0 <= i < |Remnants(shards, m)| ==> InRange(Remnants(shards, m)[i])
  {
    if shards != [] {
      RemnantsInRange(shards[..|shards| - 1], m);
      SubtractExact(shards[|shards| - 1], m, 0);
    }
  }

  lemma MovedEntryHits(e: Entry, target: string, m: Shard, c: int)
    requires m.lower <= m.upper
    ensures Hits(MovedEntry(e, target, m).shards, c)
         == if InShard(c, m) then (if e.addr == target then 1 else 0) else Hits(e.shards, c)
  {
    RemnantsHits(e.shards, m, c);
    SumConcat(Remnants(e.shards, m), if e.addr == target then [m] else [], Hit(c));
    assert [m] == [] + [m];
    SumPush([], m, Hit(c));
  }

  /** Moving a range is a map override: chunks of the range go to the target, all others keep their owner. */
  lemma MoveOverridesOwner(config: Config, target: string, m: Shard, c: nat)
    requires Partition(config) && DistinctAddrs(config) && Registered(config, target) && InRange(m)
    requires c <= NUM_CHUNKS
    ensures Owner(Moved(config, target, m), c) == if InShard(c, m) then Some(target) else Owner(config, c)
  {
    MoveKeepsPartition(config, target, m);
    var moved := Moved(config, target, m);
    PartitionMeans(moved);
    assert Owned(moved, c);
    var e :| 0 <= e < |moved| && Covers(moved[e].shards, c);
    OwnerIsEntry(moved, e, c);
    MovedEntryHits(config[e], target, m, c);
    HitsCovers(moved[e].shards, c);
    if !InShard(c, m) {
      HitsCovers(config[e].shards, c);
      OwnerIsEntry(config, e, c);
    }
  }

  lemma MoveKeepsPartition(config: Config, target: string, m: Shard)
    requires Partition(config) && DistinctAddrs(config) && Registered(config, target) && InRange(m)
    ensures Partition(Moved(config, target, m)) && DistinctAddrs(Moved(config, target, m))
  {
    MovedInRange(config, target, m);
    forall c: nat | c <= NUM_CHUNKS ensures ConfigHits(Moved(config, target, m), c) == 1 {
      assert ConfigHits(config, c) == 1;
      if InShard(c, m) {
        var t :| 0 <= t < |config| && config[t].addr == target;
        MovedHitsInside(config, target, m, c, t);
      } else {
        MovedHitsOutside(config, target, m, c);
      }
    }
  }

  lemma MovedInRange(config: Config, target: string, m: Shard)
    requires AllInRange(config) && InRange(m)
    ensures AllInRange(Moved(config, target, m))
  {
    var moved := Moved(config, target, m);
    forall e, i | 0 <= e < |moved| && 0 <= i < |moved[e].shards| ensures InRange(moved[e].shards[i]) {
      RemnantsInRange(config[e].shards, m);
    }
  }

  lemma MovedHitsOutside(config: Config, target: string, m: Shard, c: int)
    requires m.lower <= m.upper && !InShard(c, m)
    ensures ConfigHits(Moved(config, target, m), c) == ConfigHits(config, c)
  {
    var moved := Moved(config, target, m);
    forall i | 0 <= i < |config| ensures EntryHits(c)(moved[i]) == EntryHits(c)(config[i]) {
      MovedEntryHits(config[i], target, m, c);
    }
    SumEqual(moved, config, EntryHits(c), EntryHits(c));
  }

  lemma MovedHitsInside(config: Config, target: string, m: Shard, c: int, t: nat)
    requires DistinctAddrs(config) && t < |config| && config[t].addr == target
    requires m.lower <= m.upper && InShard(c, m)
    ensures ConfigHits(Moved(config, target, m), c) == 1
  {
    var moved := Moved(config, target, m);
    forall i | 0 <= i < |moved| ensures EntryHits(c)(moved[i]) == if i == t then 1 else 0 {
      MovedEntryHits(config[i], target, m, c);
    }
    SumAt(moved, t, EntryHits(c));
    SumZero(moved[..t], EntryHits(c));
    SumZero(moved[t + 1..], EntryHits(c));
  }

  /** A move keeps the configuration a partition exactly when its range is a proper interval of chunks;
      the handler itself checks neither bound. */
  lemma MovePartitionIff(config: Config, target: string, m: Shard)
    requires Partition(config) && DistinctAddrs(config) && Registered(config, target)
    ensures Partition(Moved(config, target, m)) <==> InRange(m)
  {
    if InRange(m) {
      MoveKeepsPartition(config, target, m);
    } else {
      var t :| 0 <= t < |config| && config[t].addr == target;
      var shards := Moved(config, target, m)[t].shards;
      assert shards[|shards| - 1] == m;
    }
  }

  /** What `subtract` does with a reversed range, which the handler does not refuse: when the shard reaches to
      both ends of it, the chunks strictly between the ends come out twice; nothing is ever removed. */
  lemma ReversedSubtract(a: Shard, m: Shard, c: int)
    requires m.upper < m.lower
    ensures Hits(Subtract(a, m), c)
         == if !InShard(c, a) then 0 else if Spans(a, m, c) then 2 else 1
  {
    var r := Subtract(a, m);
    if |r| == 1 {
      assert r == [] + [r[0]];
      SumPush([], r[0], Hit(c));
    } else if |r| == 2 {
      assert r == [r[0]] + [r[1]];
      SumPush([r[0]], r[1], Hit(c));
      assert [r[0]] == [] + [r[0]];
      SumPush([], r[0], Hit(c));
    }
  }

  // Reversed ranges

  /** The shard contains both ends of a reversed range, and chunk c lies strictly between them. */
  predicate Spans(s: Shard, m: Shard, c: int) {
    s.lower <= m.upper < c < m.lower <= s.upper
  }

  function Span(m: Shard, c: int): Shard -> int {
    (s: Shard) => if Spans(s, m, c) then 1 else 0
  }

  function EntrySpan(m: Shard, c: int): Entry -> int {
    (e: Entry) => Sum(e.shards, Span(m, c))
  }

  lemma {:induction false} ReversedRemnants(shards: seq<Shard>, m: Shard, c: int)
    requires m.upper < m.lower
    ensures Hits(Remnants(shards, m), c) == Hits(shards, c) + Sum(shards, Span(m, c))
  {
    if shards != [] {
      var init, last := shards[..|shards| - 1], shards[|shards| - 1];
      ReversedRemnants(init, m, c);
      ReversedSubtract(last, m, c);
      SumConcat(Remnants(init, m), Subtract(last, m), Hit(c));
    }
  }

  lemma ReversedEntry(e: Entry, target: string, m: Shard, c: int)
    requires m.upper < m.lower
    ensures Hits(MovedEntry(e, target, m).shards, c) == Hits(e.shards, c) + EntrySpan(m, c)(e)
  {
    ReversedRemnants(e.shards, m, c);
    SumConcat(Remnants(e.shards, m), if e.addr == target then [m] else [], Hit(c));
    assert [m] == [] + [m];
    SumPush([], m, Hit(c));
  }

  lemma {:induction false} ReversedTotal(before: Config, after: Config, target: string, m: Shard, c: int)
    requires m.upper < m.lower && |after| == |before|
    requires forall i :: 0 <= i < |before| ==> after[i] == MovedEntry(before[i], target, m)
    ensures ConfigHits(after, c) == ConfigHits(before, c) + Sum(before, EntrySpan(m, c))
  {
    if before != [] {
      ReversedTotal(before[..|before| - 1], after[..|after| - 1], target, m, c);
      ReversedEntry(before[|before| - 1], target, m, c);
    }
  }

  predicate Spanned(config: Config, m: Shard, c: int) {
    exists e, i :: 0 <= e < |config| && 0 <= i < |config[e].shards| && Spans(config[e].shards[i], m, c)
  }

  lemma SpanTotal(config: Config, m: Shard, c: int)
    ensures 0 <= Sum(config, EntrySpan(m, c)) <= ConfigHits(config, c)
    ensures Spanned(config, m, c) <==> 0 < Sum(config, EntrySpan(m, c))
  {
    forall e | 0 <= e < |config| ensures 0 <= EntrySpan(m, c)(config[e]) <= EntryHits(c)(config[e]) {
      SumNonNegative(config[e].shards, Span(m, c));
      SumMono(config[e].shards, Span(m, c), Hit(c));
    }
    SumNonNegative(config, EntrySpan(m, c));
    SumMono(config, EntrySpan(m, c), EntryHits(c));
    if Spanned(config, m, c) {
      var e, i :| 0 <= e < |config| && 0 <= i < |config[e].shards| && Spans(config[e].shards[i], m, c);
      SumAtLeast(config[e].shards, i, Span(m, c));
      SumAtLeast(config, e, EntrySpan(m, c));
    }
    if 0 < Sum(config, EntrySpan(m, c)) {
      var e := SumPositive(config, EntrySpan(m, c));
      var i := SumPositive(config[e].shards, Span(m, c));
      assert Spans(config[e].shards[i], m, c);
    }
  }

  /** A reversed move leaves a chunk in two shards if and only if one shard contained both ends of the range and
      the chunk lies strictly between them; every other chunk stays in one. */
  lemma ReversedMoveDuplicates(config: Config, target: string, m: Shard, c: nat)
    requires Partition(config) && m.upper < m.lower && c <= NUM_CHUNKS
    ensures ConfigHits(Moved(config, target, m), c) == if Spanned(config, m, c) then 2 else 1
  {
    assert ConfigHits(config, c) == 1;
    ReversedTotal(config, Moved(config, target, m), target, m, c);
    SpanTotal(config, m, c);
  }

  /** A reversed move gives no chunk a new owner, in any configuration. */
  lemma {:induction false} ReversedMoveKeepsOwner(config: Config, target: string, m: Shard, c: int)
    requires m.upper < m.lower
    ensures Owner(Moved(config, target, m), c) == Owner(config, c)
  {
    if config != [] {
      var moved := Moved(config, target, m);
      ReversedEntry(config[0], target, m, c);
      SpanTotal(config[..1], m, c);
      assert config[..1] == [] + [config[0]];
      SumPush([], config[0], EntrySpan(m, c));
      SumPush([], config[0], EntryHits(c));
      HitsCovers(config[0].shards, c);
      HitsCovers(moved[0].shards, c);
      assert moved[1..] == Moved(config[1..], target, m);
      ReversedMoveKeepsOwner(config[1..], target, m, c);
    }
  }

  /** Some shard contains both ends of the reversed range, with a chunk strictly between them. */
  predicate Stretched(config: Config, m: Shard) {
    exists e, i :: 0 <= e < |config| && 0 <= i < |config[e].shards| && Spans(config[e].shards[i], m, m.upper + 1)
  }

  lemma SpannedStretched(config: Config, m: Shard, c: int)
    ensures Spanned(config, m, c) ==> Stretched(config, m)
  {
    if Spanned(config, m, c) {
      var e, i :| 0 <= e < |config| && 0 <= i < |config[e].shards| && Spans(config[e].shards[i], m, c);
      assert Spans(config[e].shards[i], m, m.upper + 1);
    }
  }

  /** A move leaves every chunk in exactly one shard if and only if its range is not reversed, or no shard spans
      the reversed range: an upper end beyond the last chunk does no harm here. */
  lemma MoveCoverageIff(config: Config, target: string, m: Shard)
    requires Partition(config) && DistinctAddrs(config) && Registered(config, target)
    ensures (forall c: nat :: c <= NUM_CHUNKS ==> ConfigHits(Moved(config, target, m), c) == 1)
       <==> m.lower <= m.upper || !Stretched(config, m)
  {
    var t :| 0 <= t < |config| && config[t].addr == target;
    if m.lower <= m.upper {
      forall c: nat | c <= NUM_CHUNKS ensures ConfigHits(Moved(config, target, m), c) == 1 {
        assert ConfigHits(config, c) == 1;
        if InShard(c, m) {
          MovedHitsInside(config, target, m, c, t);
        } else {
          MovedHitsOutside(config, target, m, c);
        }
      }
    } else if Stretched(config, m) {
      var e, i :| 0 <= e < |config| && 0 <= i < |config[e].shards| && Spans(config[e].shards[i], m, m.upper + 1);
      assert InRange(config[e].shards[i]);
      ReversedMoveDuplicates(config, target, m, m.upper + 1);
    } else {
      forall c: nat | c <= NUM_CHUNKS ensures ConfigHits(Moved(config, target, m), c) == 1 {
        SpannedStretched(config, m, c);
        ReversedMoveDuplicates(config, target, m, c);
      }
    }
  }

  // Fragmentation

  function ShardCount(): Entry -> int {
    (e: Entry) => |e.shards|
  }

  function TotalShards(config: Config): int {
    Sum(config, ShardCount())
  }

  lemma {:induction false} RemnantsLength(shards: seq<Shard>, m: Shard)
    requires m.lower <= m.upper
    ensures |Remnants(shards, m)| <= |shards| + Hits(shards, m.lower)
  {
    if shards != [] {
      RemnantsLength(shards[..|shards| - 1], m);
    }
  }

  function OneAt(addr: string): Entry -> int {
    (e: Entry) => if e.addr == addr then 1 else 0
  }

  lemma {:induction false} MovedTotal(before: Config, after: Config, target: string, m: Shard)
    requires m.lower <= m.upper && |after| == |before|
    requires forall i :: 0 <= i < |before| ==> after[i] == MovedEntry(before[i], target, m)
    ensures TotalShards(after) <= TotalShards(before) + ConfigHits(before, m.lower) + Sum(before, OneAt(target))
  {
    if before != [] {
      MovedTotal(before[..|before| - 1], after[..|after| - 1], target, m);
      RemnantsLength(before[|before| - 1].shards, m);
    }
  }

  /** At most one shard contains the low end of the range, so at most one is split in two. */
  lemma MoveFragmentation(config: Config, target: string, m: Shard)
    requires Partition(config) && DistinctAddrs(config) && InRange(m)
    ensures TotalShards(Moved(config, target, m)) <= TotalShards(config) + 2
  {
    MovedTotal(config, Moved(config, target, m), target, m);
    assert ConfigHits(config, m.lower) == 1;
    if 1 < Sum(config, OneAt(target)) {
      var t := SumPositive(config, OneAt(target));
      SumAt(config, t, OneAt(target));
      SumZero(config[..t], OneAt(target));
      SumZero(config[t + 1..], OneAt(target));
    }
  }
}
