/** The response cache: entries carry the time until which they count as fresh and the time until
    which they may be served stale; dead entries are pruned whenever something is stored. */
module ResponseCache {
  import opened Options

  // Cache keys are only ever compared for equality.
  type CacheKey = int

  datatype Freshness = Hit | Stale

  datatype Entry = Entry(payload: int, fetchedAt: real, expiresAt: real, staleUntil: real)
  {
    function StatusAt(now: real): Option<Freshness> {
      if now <= expiresAt then Some(Hit) else if now <= staleUntil then Some(Stale) else None
    }
  }

  type Entries = map<CacheKey, Entry>

  function NewEntry(payload: int, now: real, ttl: real, stale: real): Entry {
    Entry(payload, now, now + ttl, now + ttl + stale)
  }

  function Pruned(entries: Entries, now: real): Entries {
    map key | key in entries && !(entries[key].staleUntil < now) :: entries[key]
  }

  lemma {:induction false} PrunedIsRest(entries: Entries, expired: set<CacheKey>, now: real)
    requires expired == set key | key in entries && entries[key].staleUntil < now
    ensures entries - expired == Pruned(entries, now)
    ensures |entries - expired| == |entries| - |expired|
  {
    var rest := entries - expired;
    assert entries.Keys == rest.Keys + expired && rest.Keys !! expired;
    assert |entries| == |entries.Keys| == |rest.Keys| + |expired|;
  }

  /** What a reader that checks the status sees under a key. */
  function Visible(entries: Entries, key: CacheKey, now: real): Option<(int, Freshness)> {
    if key in entries && entries[key].StatusAt(now).Some?
    then Some((entries[key].payload, entries[key].StatusAt(now).value))
    else None
  }

  datatype Op =
    | Store(key: CacheKey, payload: int, at: real, ttl: real, stale: real)
    | Prune(at: real)
    | Remove(key: CacheKey, at: real)

  function Apply(entries: Entries, op: Op): Entries {
    match op
    case Store(key, payload, at, ttl, stale) => Pruned(entries, at)[key := NewEntry(payload, at, ttl, stale)]
    case Prune(at) => Pruned(entries, at)
    case Remove(key, _) => entries - {key}
  }

  class InMemoryRiotCacheStore {
    var entries: Entries

    constructor ()
      ensures entries == map[]
    {
      entries := map[];
    }

    method Get(key: CacheKey) returns (entry: Option<Entry>)
      ensures entry == if key in entries then Some(entries[key]) else None
    {
      return if key in entries then Some(entries[key]) else None;
    }

    method Delete(key: CacheKey) returns (deleted: bool)
      modifies this
      ensures deleted == (key in old(entries)) && forall at :: entries == Apply(old(entries), Remove(key, at))
    {
      deleted := key in entries;
      entries := entries - {key};
    }

    method PruneExpired(now: real) returns (count: nat)
      modifies this
      ensures entries == Apply(old(entries), Prune(now)) && count == |old(entries)| - |entries|
    {
      var expired := set key | key in entries && entries[key].staleUntil < now;
      PrunedIsRest(entries, expired, now);
      count := |expired|;
      entries := entries - expired;
    }

    method Put(key: CacheKey, payload: int, now: real, ttl: real, stale: real)
      modifies this
      ensures entries == Apply(old(entries), Store(key, payload, now, ttl, stale))
    {
      var _ := PruneExpired(now);
      entries := entries[key := NewEntry(payload, now, ttl, stale)];
    }
  }

  // Runs of the cache.

  function Cached(ops: seq<Op>): Entries {
    if ops == [] then map[] else Apply(Cached(ops[..|ops| - 1]), ops[|ops| - 1])
  }

  /** The last thing stored under a key and not removed since, whether dead or alive. */
  function LastStored(ops: seq<Op>, key: CacheKey): (op: Option<Op>)
    ensures op.Some? ==> op.value.Store? && op.value.key == key && op.value in ops
  {
    if ops == [] then None
    else
      var last := ops[|ops| - 1];
      if last.Store? && last.key == key then Some(last)
      else if last.Remove? && last.key == key then None
      else LastStored(ops[..|ops| - 1], key)
  }

  predicate InOrder(ops: seq<Op>, now: real) {
    && (forall j, k | 0 <= j <= k < |ops| :: ops[j].at <= ops[k].at)
    && (forall k | 0 <= k < |ops| :: ops[k].at <= now)
  }

  /** What a map that is never pruned shows a reader that checks the status. */
  function NeverPruned(ops: seq<Op>, key: CacheKey, now: real): Option<(int, Freshness)> {
    match LastStored(ops, key)
    case None => None
    case Some(op) =>
      var status := NewEntry(op.payload, op.at, op.ttl, op.stale).StatusAt(now);
      if status.Some? then Some((op.payload, status.value)) else None
  }

  function StaleUntil(op: Op): real
    requires op.Store?
  {
    op.at + op.ttl + op.stale
  }

  /** Since the last thing was stored under the key, a prune has run after its stale time. */
  predicate PrunedSince(ops: seq<Op>, key: CacheKey) {
    if ops == [] then false
    else
      var init, last := ops[..|ops| - 1], ops[|ops| - 1];
      if (last.Store? || last.Remove?) && last.key == key then false
      else if last.Remove? then PrunedSince(init, key)
      else PrunedSince(init, key) || (LastStored(init, key).Some? && StaleUntil(LastStored(init, key).value) < last.at)
  }

  /** An entry is there, as it was stored last, unless it has been pruned. */
  lemma {:induction false} CachedIsFaithful(ops: seq<Op>, key: CacheKey)
    ensures var op := LastStored(ops, key);
      && (key in Cached(ops) <==> op.Some? && !PrunedSince(ops, key))
      && (key in Cached(ops) ==>
            Cached(ops)[key] == NewEntry(op.value.payload, op.value.at, op.value.ttl, op.value.stale))
  {
    if ops != [] {
      CachedIsFaithful(ops[..|ops| - 1], key);
    }
  }

  lemma {:induction false} PrunedIsDead(ops: seq<Op>, key: CacheKey, now: real)
    requires InOrder(ops, now) && LastStored(ops, key).Some? && PrunedSince(ops, key)
    ensures StaleUntil(LastStored(ops, key).value) < now
  {
    var init, last := ops[..|ops| - 1], ops[|ops| - 1];
    if PrunedSince(init, key) {
      PrunedIsDead(init, key, last.at);
    }
  }

  /** With a clock that never goes back, a reader that checks the status sees something other than a map that
      is never pruned would show exactly when the entry was pruned after its stale time and has not expired. */
  lemma {:induction false} WhenPruningShows(ops: seq<Op>, key: CacheKey, now: real)
    requires InOrder(ops, now)
    ensures Visible(Cached(ops), key, now) != NeverPruned(ops, key, now)
            <==> && LastStored(ops, key).Some? && PrunedSince(ops, key)
                 && now <= LastStored(ops, key).value.at + LastStored(ops, key).value.ttl
  {
    CachedIsFaithful(ops, key);
    if LastStored(ops, key).Some? && PrunedSince(ops, key) {
      PrunedIsDead(ops, key, now);
    }
  }

  /** Pruning is invisible: with a clock that never goes back and stale windows that are not negative, every
      reader sees under every key what a map that is never pruned would show. */
  lemma {:induction false} PruningIsInvisible(ops: seq<Op>, key: CacheKey, now: real)
    requires InOrder(ops, now)
    requires forall k | 0 <= k < |ops| && ops[k].Store? :: ops[k].stale >= 0.0
    ensures Visible(Cached(ops), key, now) == NeverPruned(ops, key, now)
  {
    WhenPruningShows(ops, key, now);
    if LastStored(ops, key).Some? && PrunedSince(ops, key) {
      PrunedIsDead(ops, key, now);
    }
  }

  /** A payload that is served is the one stored last under its key, and it is no older than its time
      to live and its stale window together; as a hit, no older than its time to live. */
  lemma {:induction false} ServedIsLastAndYoung(ops: seq<Op>, key: CacheKey, now: real)
    requires InOrder(ops, now)
    requires Visible(Cached(ops), key, now).Some?
    ensures var (payload, freshness) := Visible(Cached(ops), key, now).value;
      var op := LastStored(ops, key);
      && op.Some? && op.value.Store? && op.value.payload == payload
      && (freshness == Hit ==> now - op.value.at <= op.value.ttl)
      && (freshness == Stale ==> now - op.value.at <= op.value.ttl + op.value.stale)
  {
    CachedIsFaithful(ops, key);
  }

  /** Stores something under the key, or removes what is there. */
  predicate Concerns(op: Op, key: CacheKey) {
    (op.Store? || op.Remove?) && op.key == key
  }

  lemma {:induction false} LastConcerned(ops: seq<Op>, key: CacheKey, k: nat)
    requires k < |ops| && Concerns(ops[k], key) && forall j | k < j < |ops| :: !Concerns(ops[j], key)
    ensures LastStored(ops, key) == if ops[k].Store? then Some(ops[k]) else None
    ensures ops[k].Store? ==>
      (PrunedSince(ops, key) <==> exists j | k < j < |ops| :: !ops[j].Remove? && ops[j].at > StaleUntil(ops[k]))
  {
    if k < |ops| - 1 {
      LastConcerned(ops[..|ops| - 1], key, k);
    }
  }

  /** When a payload is served: it is the last one stored under the key, and it is a hit for its time to live, unless
      something was stored or pruned since after the end of its stale window, and stale from then to the end of that
      window. */
  lemma {:induction false} ServedExactly(ops: seq<Op>, key: CacheKey, k: nat, now: real)
    requires InOrder(ops, now) && k < |ops| && Concerns(ops[k], key)
    requires forall j | k < j < |ops| :: !Concerns(ops[j], key)
    ensures ops[k].Remove? ==> Visible(Cached(ops), key, now) == None
    ensures ops[k].Store? ==>
      var expires, dead := ops[k].at + ops[k].ttl, ops[k].at + ops[k].ttl + ops[k].stale;
      var pruned := exists j | k < j < |ops| :: !ops[j].Remove? && ops[j].at > dead;
      Visible(Cached(ops), key, now)
      == if now <= expires && !pruned then Some((ops[k].payload, Hit))
         else if expires < now <= dead then Some((ops[k].payload, Stale))
         else None
  {
    LastConcerned(ops, key, k);
    CachedIsFaithful(ops, key);
    hide LastStored, PrunedSince, Cached;
  }

  /** And a key nothing was ever stored under shows nothing. */
  lemma {:induction false} NothingServed(ops: seq<Op>, key: CacheKey, now: real)
    requires forall k | 0 <= k < |ops| :: !Concerns(ops[k], key)
    ensures key !in Cached(ops) && Visible(Cached(ops), key, now) == None
  {
    if ops != [] {
      NothingServed(ops[..|ops| - 1], key, now);
    }
  }
}
