/** The five-minute freshness cache of src/services/cache.ts.

    Browser storage is a map from keys to stored snapshots; the cache owns one
    key of it. `Date.now()` becomes an explicit clock argument in milliseconds,
    and the JSON encoding of the slot is dropped: a snapshot is stored and read
    back as a structured value. */
module Cache {
  import opened Types

  /** The one storage key the cache reads and writes. */
  const CacheKey: string := "docker_apps_cache"

  /** Time to live of a snapshot, in milliseconds (five minutes). */
  const CacheExpiry: int := 1000 * 60 * 5

  /** What the slot holds: the write time and the catalog written. */
  datatype CacheData = CacheData(timestamp: int, data: seq<DockerApp>)

  /** Browser storage: every key, not only the cache's. */
  type Storage = map<string, CacheData>

  /** A snapshot is stale once strictly more than `CacheExpiry` milliseconds
      have passed since it was written. A clock that went backwards gives a
      negative age and never expires a snapshot. */
  predicate IsExpired(entry: CacheData, now: int)
  {
    now - entry.timestamp > CacheExpiry
  }

  /** Storage keys other than the cache's hold the same values in both. */
  predicate SameOtherKeys(s: Storage, s': Storage)
  {
    s - {CacheKey} == s' - {CacheKey}
  }

  /** Outcome of a read: the catalog, or `None` for `null`, and the storage
      after the read (a stale read evicts). */
  datatype Read = Read(apps: Option<seq<DockerApp>>, storage: Storage)

  /** `setApps`: stamps the catalog with the current time and overwrites the slot
      whatever it held. */
  function SetApps(s: Storage, apps: seq<DockerApp>, now: nat): (s': Storage)
    ensures CacheKey in s' && s'[CacheKey].data == apps && s'[CacheKey].timestamp == now
    ensures SameOtherKeys(s, s')
  {
    s[CacheKey := CacheData(now, apps)]
  }

  /** `getApps`: an empty slot reads `null`; a stale snapshot is removed and
      reads `null`; a fresh one is returned as written. */
  function GetApps(s: Storage, now: nat): (r: Read)
    ensures r.apps.Some? <==> CacheKey in s && !IsExpired(s[CacheKey], now)
    ensures r.apps.Some? ==> r.apps.value == s[CacheKey].data && r.storage == s
    ensures r.apps.None? ==> CacheKey !in r.storage
    ensures CacheKey !in s ==> r.storage == s
    ensures SameOtherKeys(s, r.storage)
  {
    if CacheKey !in s then Read(None, s)
    else if IsExpired(s[CacheKey], now) then Read(None, s - {CacheKey})
    else Read(Some(s[CacheKey].data), s)
  }

  /** `clearCache`: removes the slot unconditionally. */
  function ClearCache(s: Storage): (s': Storage)
    ensures CacheKey !in s'
    ensures SameOtherKeys(s, s')
    ensures CacheKey !in s ==> s' == s
  {
    s - {CacheKey}
  }

  /** Round trip: a catalog written at `t` is read back unchanged, without
      touching storage, by any read at most `CacheExpiry` later. */
  lemma SetThenGetFresh(s: Storage, apps: seq<DockerApp>, t: nat, t': nat)
    requires t' - t <= CacheExpiry
    ensures GetApps(SetApps(s, apps, t), t') == Read(Some(apps), SetApps(s, apps, t))
  {
  }

  /** Expiry is strict: a read exactly `CacheExpiry` after the write still hits,
      one a millisecond later misses and empties the slot. */
  lemma ExpiryBoundary(s: Storage, apps: seq<DockerApp>, t: nat)
    ensures GetApps(SetApps(s, apps, t), t + 300000).apps == Some(apps)
    ensures GetApps(SetApps(s, apps, t), t + 300001).apps == None
    ensures CacheKey !in GetApps(SetApps(s, apps, t), t + 300001).storage
  {
  }

  /** Any read later than `CacheExpiry` after the write misses. */
  lemma SetThenGetStale(s: Storage, apps: seq<DockerApp>, t: nat, t': nat)
    requires t' - t > CacheExpiry
    ensures GetApps(SetApps(s, apps, t), t').apps == None
    ensures GetApps(SetApps(s, apps, t), t').storage == ClearCache(s)
  {
  }

  /** After `clearCache`, a read misses whatever the clock says. */
  lemma ClearThenGet(s: Storage, t: nat)
    ensures GetApps(ClearCache(s), t) == Read(None, ClearCache(s))
  {
  }

  /** Two writes: only the second snapshot is observable. */
  lemma OverwriteLastWins(s: Storage, a1: seq<DockerApp>, t1: nat, a2: seq<DockerApp>, t2: nat)
    ensures SetApps(SetApps(s, a1, t1), a2, t2) == SetApps(s, a2, t2)
  {
  }

  /** A read that hits leaves storage alone, so any later read while the
      snapshot is still fresh gives the same answer. */
  lemma FreshReadIdempotent(s: Storage, t: nat, t2: nat)
    requires GetApps(s, t).apps.Some?
    requires !IsExpired(s[CacheKey], t2)
    ensures GetApps(GetApps(s, t).storage, t2) == GetApps(s, t)
  {
  }

  /** The cache's operations, for reasoning about sequences of them. */
  datatype CacheOp = SetOp(apps: seq<DockerApp>, at: nat) | GetOp(at: nat) | ClearOp

  function Apply(s: Storage, op: CacheOp): Read
  {
    match op
    case SetOp(apps, at) => Read(None, SetApps(s, apps, at))
    case GetOp(at) => GetApps(s, at)
    case ClearOp => Read(None, ClearCache(s))
  }

  /** Runs the operations in order; returns the final storage and what each
      `getApps` returned (`None` for the other operations). */
  function Run(s: Storage, ops: seq<CacheOp>): (r: (Storage, seq<Option<seq<DockerApp>>>))
    ensures |r.1| == |ops|
    decreases |ops|
  {
    if ops == [] then (s, [])
    else
      var step := Apply(s, ops[0]);
      var rest := Run(step.storage, ops[1..]);
      (rest.0, [step.apps] + rest.1)
  }

  /** No sequence of cache operations changes a storage key other than the cache's. */
  lemma {:induction false} RunKeepsOtherKeys(s: Storage, ops: seq<CacheOp>)
    ensures SameOtherKeys(s, Run(s, ops).0)
    decreases |ops|
  {
    if ops != [] {
      RunKeepsOtherKeys(Apply(s, ops[0]).storage, ops[1..]);
    }
  }

  predicate NoWrites(ops: seq<CacheOp>)
  {
    forall i :: 0 <= i < |ops| ==> !ops[i].SetOp?
  }

  /** Once the slot is empty (after an eviction or `clearCache`), every read
      misses, at any clock values, until the next `setApps`. */
  lemma {:induction false} EmptySlotStaysEmpty(s: Storage, ops: seq<CacheOp>)
    requires CacheKey !in s
    requires NoWrites(ops)
    ensures CacheKey !in Run(s, ops).0
    ensures forall i :: 0 <= i < |ops| ==> Run(s, ops).1[i] == None
    decreases |ops|
  {
    if ops != [] {
      var step := Apply(s, ops[0]);
      assert !ops[0].SetOp?;
      assert step.apps == None && CacheKey !in step.storage;
      assert NoWrites(ops[1..]) by {
        forall i | 0 <= i < |ops[1..]| ensures !ops[1..][i].SetOp? {
          assert ops[1..][i] == ops[i + 1];
        }
      }
      EmptySlotStaysEmpty(step.storage, ops[1..]);
      var r := Run(s, ops);
      assert r.1 == [step.apps] + Run(step.storage, ops[1..]).1;
      forall i | 0 <= i < |ops| ensures r.1[i] == None {
        if i > 0 {
          assert r.1[i] == Run(step.storage, ops[1..]).1[i - 1];
        }
      }
    }
  }

  /** A stale read evicts, and from then on reads miss until the next write. */
  lemma {:induction false} EvictionIsSticky(s: Storage, t: nat, ops: seq<CacheOp>)
    requires CacheKey in s && IsExpired(s[CacheKey], t)
    requires NoWrites(ops)
    ensures GetApps(s, t).apps == None
    ensures forall i :: 0 <= i < |ops| ==> Run(GetApps(s, t).storage, ops).1[i] == None
  {
    EmptySlotStaysEmpty(GetApps(s, t).storage, ops);
  }
}
