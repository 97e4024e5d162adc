/** The replay cache: two mirrored indexes with lazy expiry, amortized sweeps and capacity eviction. */
module Replay {
  import opened Text

  /** The window in seconds and the entry cap the engine is built with. */
  const REPLAY_TTL := 600
  const REPLAY_CACHE_MAX_ENTRIES := 100_000

  /** Token verifier and caller-supplied request id. */
  type Key = (string, string)

  datatype Cache = Cache(entries: map<Key, nat>, liveAtLastSweep: nat)

  /** `Instant::duration_since` saturates at zero. */
  function Age(now: nat, at: nat): nat {
    if now >= at then now - at else 0
  }

  predicate Within(entries: map<Key, nat>, ttl: nat, now: nat, key: Key) {
    key in entries && Age(now, entries[key]) < ttl
  }

  /** `order` holds exactly the (time, key) pairs of `entries`. */
  ghost predicate Mirrored(order: set<(nat, Key)>, entries: map<Key, nat>) {
    forall at: nat, key: Key :: (at, key) in order <==> key in entries && entries[key] == at
  }

  function Swept(entries: map<Key, nat>, ttl: nat, now: nat): map<Key, nat> {
    map key | key in entries && Age(now, entries[key]) < ttl :: entries[key]
  }

  predicate SweepDue(c: Cache, key: Key) {
    key !in c.entries && |c.entries| > 2 * c.liveAtLastSweep
  }

  /** Entries a call to `register` visits in its sweep, if it sweeps. */
  function SweepCost(c: Cache, key: Key): nat {
    if SweepDue(c, key) then |c.entries| else 0
  }

  predicate SubMap(a: map<Key, nat>, b: map<Key, nat>) {
    forall key | key in a :: key in b && a[key] == b[key]
  }

  predicate OldestRemoved(before: map<Key, nat>, after: map<Key, nat>) {
    && SubMap(after, before)
    && forall gone, kept | gone in before && gone !in after && kept in after :: before[gone] <= after[kept]
  }

  /** Oldest entries are gone, ties broken in any way, until one slot is free. */
  predicate EvictedDown(before: map<Key, nat>, after: map<Key, nat>, capacity: nat) {
    && OldestRemoved(before, after)
    && |after| == if |before| >= capacity then capacity - 1 else |before|
  }

  /** What one call does, stated without the loop that does it. */
  ghost predicate Registered(c: Cache, ttl: nat, capacity: nat, now: nat, key: Key, c': Cache, isNew: bool) {
    if Within(c.entries, ttl, now, key) then !isNew && c' == c
    else if key in c.entries then isNew && c' == c.(entries := c.entries[key := now])
    else
      var base := if SweepDue(c, key) then Swept(c.entries, ttl, now) else c.entries;
      && isNew
      && c'.liveAtLastSweep == (if SweepDue(c, key) then |base| else c.liveAtLastSweep)
      && exists kept :: EvictedDown(base, kept, capacity) && c'.entries == kept[key := now]
  }

  class ReplayCache {
    const ttl: nat
    const capacity: nat
    var entries: map<Key, nat>
    var order: set<(nat, Key)>
    var liveAtLastSweep: nat

    ghost predicate Valid()
      reads this
    {
      capacity > 0 && Mirrored(order, entries) && |entries| <= capacity
    }

    ghost function State(): Cache
      reads this
    {
      Cache(entries, liveAtLastSweep)
    }

    constructor (ttl: nat, capacity: nat)
      requires capacity > 0
      ensures Valid() && this.ttl == ttl && this.capacity == capacity && State() == Cache(map[], 0)
    {
      this.ttl, this.capacity := ttl, capacity;
      entries, order, liveAtLastSweep := map[], {}, 0;
    }

    method Register(now: nat, key: Key) returns (isNew: bool)
      requires Valid()
      modifies this
      ensures Valid()
      ensures Registered(old(State()), ttl, capacity, now, key, State(), isNew)
    {
      if key in entries {
        var registeredAt := entries[key];
        if Age(now, registeredAt) < ttl {
          return false;
        }
        order := order - {(registeredAt, key)};
        entries := entries[key := now];
        order := order + {(now, key)};
        assert entries.Keys == old(entries.Keys);
        return true;
      }
      if |entries| > 2 * liveAtLastSweep {
        SweepExpired(now);
      }
      ghost var base := entries;
      MakeRoom();
      ghost var kept := entries;
      assert EvictedDown(base, kept, capacity);
      entries := entries[key := now];
      order := order + {(now, key)};
      assert entries.Keys == kept.Keys + {key};
      return true;
    }

    /** The eviction loop; it ends because each turn removes an entry. */
    method MakeRoom()
      requires capacity > 0 && Mirrored(order, entries)
      modifies this`entries, this`order
      ensures Mirrored(order, entries)
      ensures EvictedDown(old(entries), entries, capacity)
    {
      while |entries| >= capacity
        invariant Mirrored(order, entries)
        invariant OldestRemoved(old(entries), entries)
        invariant if |old(entries)| >= capacity then |entries| >= capacity - 1 else entries == old(entries)
        decreases |entries|
      {
        EvictOldest();
      }
    }

    method SweepExpired(now: nat)
      requires Mirrored(order, entries)
      modifies this
      ensures Mirrored(order, entries)
      ensures entries == Swept(old(entries), ttl, now) && |entries| <= |old(entries)|
      ensures liveAtLastSweep == |entries|
    {
      var todo := entries.Keys;
      while todo != {}
        invariant todo <= entries.Keys
        invariant Mirrored(order, entries)
        invariant SubMap(entries, old(entries))
        invariant forall key | key in old(entries) && key !in todo ::
                    key in entries <==> Age(now, old(entries)[key]) < ttl
        invariant todo <= old(entries.Keys)
        invariant forall key | key in todo :: key in entries
        invariant |entries| <= |old(entries)|
      {
        var key :| key in todo;
        todo := todo - {key};
        if Age(now, entries[key]) >= ttl {
          order := order - {(entries[key], key)};
          ghost var was := entries;
          entries := entries - {key};
          assert entries.Keys == was.Keys - {key};
        }
      }
      liveAtLastSweep := |entries|;
    }

    /** Pops an entry no other entry is older than. */
    method EvictOldest()
      requires Mirrored(order, entries) && entries != map[]
      modifies this`entries, this`order
      ensures Mirrored(order, entries)
      ensures |entries| == |old(entries)| - 1
      ensures OldestRemoved(old(entries), entries)
    {
      ghost var key :| key in entries;
      assert (entries[key], key) in order;
      ghost var oldest := OldestExists(order);
      var first :| first in order && forall other | other in order :: first.0 <= other.0;
      order := order - {first};
      entries := entries - {first.1};
      assert entries.Keys == old(entries.Keys) - {first.1};
      forall gone, kept | gone in old(entries) && gone !in entries && kept in entries
        ensures old(entries)[gone] <= entries[kept]
      {
        assert (first.0, first.1) in old(order) && (entries[kept], kept) in old(order);
      }
    }
  }

  lemma {:induction false} OldestExists(order: set<(nat, Key)>) returns (first: (nat, Key))
    requires order != {}
    ensures first in order && forall other | other in order :: first.0 <= other.0
  {
    first :| first in order;
    if order != {first} {
      var rest := OldestExists(order - {first});
      assert forall other | other in order :: other == first || other in order - {first};
      if rest.0 < first.0 {
        first := rest;
      }
    }
  }

  // --- Against a ledger that never forgets --------------------------------------------------------

  function Remember(ledger: map<Key, nat>, ttl: nat, now: nat, key: Key): map<Key, nat> {
    if Within(ledger, ttl, now, key) then ledger else ledger[key := now]
  }

  function LiveKeys(ledger: map<Key, nat>, ttl: nat, now: nat): set<Key> {
    set key | key in ledger && Age(now, ledger[key]) < ttl
  }

  /** The cache holds nothing the ledger does not, and everything still inside the window. */
  predicate Agrees(c: Cache, ledger: map<Key, nat>, ttl: nat, now: nat) {
    SubMap(c.entries, ledger) && forall key | key in LiveKeys(ledger, ttl, now) :: key in c.entries
  }

  lemma EvictionSparesLive(base: map<Key, nat>, kept: map<Key, nat>, capacity: nat, live: set<Key>, ttl: nat, now: nat)
    requires capacity > 0 && EvictedDown(base, kept, capacity)
    requires forall key | key in base :: key in live <==> Age(now, base[key]) < ttl
    requires |live| < capacity
    ensures forall key | key in base && key in live :: key in kept
  {
    forall key | key in base && key in live ensures key in kept {
      if key !in kept {
        SubsetSize(kept.Keys + {key}, base.Keys);
        assert forall k | k in kept :: k in live;
        SubsetSize(kept.Keys + {key}, live);
        assert false;
      }
    }
  }

  /** One call answers as the ledger does, provided a new pair finds fewer than `capacity` live ones. */
  lemma RegisterFollowsLedger(
      c: Cache, ledger: map<Key, nat>, ttl: nat, capacity: nat, now: nat, key: Key, c': Cache, isNew: bool)
    requires capacity > 0 && Agrees(c, ledger, ttl, now) && Registered(c, ttl, capacity, now, key, c', isNew)
    requires !Within(ledger, ttl, now, key) ==> |LiveKeys(ledger, ttl, now)| < capacity
    ensures isNew <==> !Within(ledger, ttl, now, key)
    ensures Agrees(c', Remember(ledger, ttl, now, key), ttl, now)
  {
    var live := LiveKeys(ledger, ttl, now);
    if key !in c.entries {
      assert key !in live;
      var base := if SweepDue(c, key) then Swept(c.entries, ttl, now) else c.entries;
      var kept :| EvictedDown(base, kept, capacity) && c'.entries == kept[key := now];
      InsertFollowsLedger(c, ledger, ttl, capacity, now, key, base, kept, c'.entries, ledger[key := now]);
    }
  }

  lemma InsertFollowsLedger(
      c: Cache, ledger: map<Key, nat>, ttl: nat, capacity: nat, now: nat, key: Key,
      base: map<Key, nat>, kept: map<Key, nat>, entries': map<Key, nat>, ledger': map<Key, nat>)
    requires capacity > 0 && Agrees(c, ledger, ttl, now) && key !in c.entries
    requires base == c.entries || base == Swept(c.entries, ttl, now)
    requires EvictedDown(base, kept, capacity) && |LiveKeys(ledger, ttl, now)| < capacity
    requires entries' == kept[key := now] && ledger' == ledger[key := now]
    ensures SubMap(entries', ledger')
    ensures forall k | k in LiveKeys(ledger', ttl, now) :: k in entries'
  {
    var live := LiveKeys(ledger, ttl, now);
    EvictionSparesLive(base, kept, capacity, live, ttl, now);
    forall k | k in LiveKeys(ledger', ttl, now) ensures k in entries' {
      if k != key {
        assert k in live && k in base;
      }
    }
  }

  /** With a full window of live pairs, a new registration makes the cache forget one of them. */
  lemma FullWindowForgets(
      c: Cache, ledger: map<Key, nat>, ttl: nat, capacity: nat, now: nat, key: Key, c': Cache, isNew: bool)
      returns (forgotten: Key)
    requires capacity > 0 && Agrees(c, ledger, ttl, now) && Registered(c, ttl, capacity, now, key, c', isNew)
    requires !Within(ledger, ttl, now, key) && |c.entries| <= capacity
    requires |LiveKeys(ledger, ttl, now)| >= capacity
    ensures Within(ledger, ttl, now, forgotten) && forgotten != key && forgotten !in c'.entries
  {
    var live := LiveKeys(ledger, ttl, now);
    if key in c.entries {
      SubsetSize(live + {key}, c.entries.Keys);
      assert false;
    }
    var base := if SweepDue(c, key) then Swept(c.entries, ttl, now) else c.entries;
    var kept :| EvictedDown(base, kept, capacity) && c'.entries == kept[key := now];
    SubsetSize(live, base.Keys);
    if forall k | k in live :: k in kept {
      SubsetSize(live, kept.Keys);
      assert false;
    }
    forgotten :| forgotten in live && forgotten !in kept;
  }

  datatype Call = Call(now: nat, key: Key)

  function LedgerAt(calls: seq<Call>, ttl: nat, i: nat): map<Key, nat>
    requires i <= |calls|
  {
    if i == 0 then map[] else Remember(LedgerAt(calls, ttl, i - 1), ttl, calls[i - 1].now, calls[i - 1].key)
  }

  ghost predicate CacheRun(calls: seq<Call>, ttl: nat, capacity: nat, states: seq<Cache>, answers: seq<bool>) {
    && |states| == |calls| + 1
    && |answers| == |calls|
    && states[0] == Cache(map[], 0)
    && forall i | 0 <= i < |calls| ::
         Registered(states[i], ttl, capacity, calls[i].now, calls[i].key, states[i + 1], answers[i])
  }

  predicate ClockNondecreasing(calls: seq<Call>) {
    forall i, j | 0 <= i < j < |calls| :: calls[i].now <= calls[j].now
  }

  predicate WindowNeverFull(calls: seq<Call>, ttl: nat, capacity: nat) {
    forall i | 0 <= i < |calls| && !Within(LedgerAt(calls, ttl, i), ttl, calls[i].now, calls[i].key) ::
      |LiveKeys(LedgerAt(calls, ttl, i), ttl, calls[i].now)| < capacity
  }

  lemma {:induction false} CacheAgreesAt(calls: seq<Call>, ttl: nat, capacity: nat, states: seq<Cache>,
      answers: seq<bool>, i: nat, now: nat)
    requires capacity > 0 && CacheRun(calls, ttl, capacity, states, answers)
    requires ClockNondecreasing(calls) && WindowNeverFull(calls, ttl, capacity)
    requires i <= |calls| && (i > 0 ==> calls[i - 1].now <= now)
    ensures Agrees(states[i], LedgerAt(calls, ttl, i), ttl, now)
  {
    if i > 0 {
      var call := calls[i - 1];
      CacheAgreesAt(calls, ttl, capacity, states, answers, i - 1, call.now);
      RegisterFollowsLedger(states[i - 1], LedgerAt(calls, ttl, i - 1), ttl, capacity, call.now, call.key, states[i],
          answers[i - 1]);
      assert Agrees(states[i], LedgerAt(calls, ttl, i), ttl, call.now);
      assert forall key | key in LiveKeys(LedgerAt(calls, ttl, i), ttl, now) ::
             key in LiveKeys(LedgerAt(calls, ttl, i), ttl, call.now);
    }
  }

  /** Lazy expiry, sweeps and eviction are invisible: every answer of every such run is the ledger's. */
  lemma CacheAnswersAsLedger(calls: seq<Call>, ttl: nat, capacity: nat, states: seq<Cache>, answers: seq<bool>, i: nat)
    requires capacity > 0 && CacheRun(calls, ttl, capacity, states, answers)
    requires ClockNondecreasing(calls) && WindowNeverFull(calls, ttl, capacity)
    requires i < |calls|
    ensures answers[i] <==> !Within(LedgerAt(calls, ttl, i), ttl, calls[i].now, calls[i].key)
  {
    CacheAgreesAt(calls, ttl, capacity, states, answers, i, calls[i].now);
    RegisterFollowsLedger(states[i], LedgerAt(calls, ttl, i), ttl, capacity, calls[i].now, calls[i].key, states[i + 1],
        answers[i]);
  }

  /** The cache agrees with the ledger right after each of the first `n` calls. */
  predicate AgreesThrough(calls: seq<Call>, ttl: nat, states: seq<Cache>, n: nat)
    requires n <= |calls| && |states| == |calls| + 1
  {
    forall i | 0 < i <= n :: Agrees(states[i], LedgerAt(calls, ttl, i), ttl, calls[i - 1].now)
  }

  lemma AgreesLater(c: Cache, ledger: map<Key, nat>, ttl: nat, now: nat, later: nat)
    requires Agrees(c, ledger, ttl, now) && now <= later
    ensures Agrees(c, ledger, ttl, later)
  {
    assert forall key | key in LiveKeys(ledger, ttl, later) :: key in LiveKeys(ledger, ttl, now);
  }

  /** A call that meets a full window breaks the agreement. */
  lemma FullWindowBreaksAgreement(
      calls: seq<Call>, ttl: nat, capacity: nat, states: seq<Cache>, answers: seq<bool>, i: nat)
    requires capacity > 0 && CacheRun(calls, ttl, capacity, states, answers) && ClockNondecreasing(calls)
    requires i < |calls| && AgreesThrough(calls, ttl, states, i)
    requires !Within(LedgerAt(calls, ttl, i), ttl, calls[i].now, calls[i].key)
    requires |LiveKeys(LedgerAt(calls, ttl, i), ttl, calls[i].now)| >= capacity
    ensures !Agrees(states[i + 1], LedgerAt(calls, ttl, i + 1), ttl, calls[i].now)
  {
    var ledger, call := LedgerAt(calls, ttl, i), calls[i];
    if i > 0 {
      AgreesLater(states[i], ledger, ttl, calls[i - 1].now, call.now);
    }
    SizeStaysWithinCapacity(calls, ttl, capacity, states, answers, i);
    var forgotten := FullWindowForgets(states[i], ledger, ttl, capacity, call.now, call.key, states[i + 1], answers[i]);
    assert forgotten in LiveKeys(LedgerAt(calls, ttl, i + 1), ttl, call.now);
  }

  /** Under a nondecreasing clock the cache agrees with the ledger after every call exactly when no window is full. */
  lemma CacheAgreesIffWindowNeverFull(calls: seq<Call>, ttl: nat, capacity: nat, states: seq<Cache>, answers: seq<bool>)
    requires capacity > 0 && CacheRun(calls, ttl, capacity, states, answers) && ClockNondecreasing(calls)
    ensures AgreesThrough(calls, ttl, states, |calls|) <==> WindowNeverFull(calls, ttl, capacity)
  {
    if WindowNeverFull(calls, ttl, capacity) {
      forall i | 0 < i <= |calls| ensures Agrees(states[i], LedgerAt(calls, ttl, i), ttl, calls[i - 1].now) {
        CacheAgreesAt(calls, ttl, capacity, states, answers, i, calls[i - 1].now);
      }
    } else {
      var i :| 0 <= i < |calls| && !Within(LedgerAt(calls, ttl, i), ttl, calls[i].now, calls[i].key)
               && |LiveKeys(LedgerAt(calls, ttl, i), ttl, calls[i].now)| >= capacity;
      if AgreesThrough(calls, ttl, states, |calls|) {
        assert AgreesThrough(calls, ttl, states, i);
        FullWindowBreaksAgreement(calls, ttl, capacity, states, answers, i);
        assert false;
      }
    }
  }

  /** Call `j` passed and registered `key` at `at`. */
  predicate PassedAt(calls: seq<Call>, answers: seq<bool>, j: nat, key: Key, at: nat) {
    j < |calls| && j < |answers| && answers[j] && calls[j] == Call(at, key)
  }

  lemma EntryIsOldOrNew(c: Cache, ttl: nat, capacity: nat, now: nat, key: Key, c': Cache, isNew: bool, k: Key)
    requires Registered(c, ttl, capacity, now, key, c', isNew) && k in c'.entries
    ensures (k in c.entries && c'.entries[k] == c.entries[k]) || (isNew && k == key && c'.entries[k] == now)
  {
  }

  /** Every entry was put there by a call that passed. */
  lemma {:induction false} EntriesComeFromPasses(
      calls: seq<Call>, ttl: nat, capacity: nat, states: seq<Cache>, answers: seq<bool>, i: nat, k: Key)
      returns (j: nat)
    requires CacheRun(calls, ttl, capacity, states, answers) && i <= |calls| && k in states[i].entries
    ensures j < i && PassedAt(calls, answers, j, k, states[i].entries[k])
  {
    var call := calls[i - 1];
    EntryIsOldOrNew(states[i - 1], ttl, capacity, call.now, call.key, states[i], answers[i - 1], k);
    if k in states[i - 1].entries && states[i].entries[k] == states[i - 1].entries[k] {
      j := EntriesComeFromPasses(calls, ttl, capacity, states, answers, i - 1, k);
    } else {
      j := i - 1;
    }
  }

  /** No refusal is spurious, full window or not: the pair passed earlier, less than a window ago. */
  lemma RefusalsAreGenuine(
      calls: seq<Call>, ttl: nat, capacity: nat, states: seq<Cache>, answers: seq<bool>, i: nat) returns (j: nat)
    requires CacheRun(calls, ttl, capacity, states, answers) && i < |calls| && !answers[i]
    ensures j < i && answers[j] && calls[j].key == calls[i].key && Age(calls[i].now, calls[j].now) < ttl
  {
    assert Registered(states[i], ttl, capacity, calls[i].now, calls[i].key, states[i + 1], answers[i]);
    j := EntriesComeFromPasses(calls, ttl, capacity, states, answers, i, calls[i].key);
  }

  lemma {:induction false} LedgerKeepsNewest(calls: seq<Call>, ttl: nat, i: nat, j: nat)
    requires ClockNondecreasing(calls) && i < j <= |calls|
    requires !Within(LedgerAt(calls, ttl, i), ttl, calls[i].now, calls[i].key)
    ensures calls[i].key in LedgerAt(calls, ttl, j) && LedgerAt(calls, ttl, j)[calls[i].key] >= calls[i].now
    decreases j - i
  {
    if j > i + 1 {
      LedgerKeepsNewest(calls, ttl, i, j - 1);
    }
  }

  /** A pair let through twice was let through at least a full window apart. */
  lemma PassesAreAWindowApart(calls: seq<Call>, ttl: nat, capacity: nat, states: seq<Cache>, answers: seq<bool>,
      i: nat, j: nat)
    requires capacity > 0 && CacheRun(calls, ttl, capacity, states, answers)
    requires ClockNondecreasing(calls) && WindowNeverFull(calls, ttl, capacity)
    requires i < j < |calls| && calls[i].key == calls[j].key && answers[i] && answers[j]
    ensures calls[j].now - calls[i].now >= ttl
  {
    CacheAnswersAsLedger(calls, ttl, capacity, states, answers, i);
    CacheAnswersAsLedger(calls, ttl, capacity, states, answers, j);
    LedgerKeepsNewest(calls, ttl, i, j);
  }

  // --- Size and cost over any run ---------------------------------------------------------------------

  lemma {:induction false} SizeStaysWithinCapacity(
      calls: seq<Call>, ttl: nat, capacity: nat, states: seq<Cache>, answers: seq<bool>, i: nat)
    requires capacity > 0 && CacheRun(calls, ttl, capacity, states, answers) && i <= |calls|
    ensures |states[i].entries| <= capacity
  {
    if i > 0 {
      SizeStaysWithinCapacity(calls, ttl, capacity, states, answers, i - 1);
      SizeGrowsByInsertion(states[i - 1], ttl, capacity, calls[i - 1].now, calls[i - 1].key, states[i], answers[i - 1]);
    }
  }

  lemma SizeGrowsByInsertion(c: Cache, ttl: nat, capacity: nat, now: nat, key: Key, c': Cache, isNew: bool)
    requires capacity > 0 && |c.entries| <= capacity && Registered(c, ttl, capacity, now, key, c', isNew)
    ensures |c'.entries| <= capacity
    ensures key in c.entries ==> |c'.entries| == |c.entries| && c'.liveAtLastSweep == c.liveAtLastSweep
    ensures key !in c.entries ==>
              |c'.entries| <= 1 + (if SweepDue(c, key) then c'.liveAtLastSweep else |c.entries|)
    ensures !SweepDue(c, key) ==> c'.liveAtLastSweep == c.liveAtLastSweep
  {
    if key in c.entries {
      assert c.entries[key := now].Keys == c.entries.Keys;
    } else {
      var base := if SweepDue(c, key) then Swept(c.entries, ttl, now) else c.entries;
      var kept :| EvictedDown(base, kept, capacity) && c'.entries == kept[key := now];
      assert c'.entries.Keys == kept.Keys + {key};
    }
  }

  /** Entries visited by the sweeps of the first `i` calls. */
  function TotalVisited(calls: seq<Call>, states: seq<Cache>, i: nat): nat
    requires i <= |calls| && |states| == |calls| + 1
  {
    if i == 0 then 0 else TotalVisited(calls, states, i - 1) + SweepCost(states[i - 1], calls[i - 1].key)
  }

  /** Calls among the first `i` that added a pair the cache did not hold. */
  function Insertions(calls: seq<Call>, states: seq<Cache>, i: nat): nat
    requires i <= |calls| && |states| == |calls| + 1
  {
    if i == 0 then 0 else Insertions(calls, states, i - 1) + if calls[i - 1].key in states[i - 1].entries then 0 else 1
  }

  /** Sweeping is paid for by insertions; the second bound is the credit that pays for the next sweep. */
  lemma {:induction false} SweepsAreAmortized(
      calls: seq<Call>, ttl: nat, capacity: nat, states: seq<Cache>, answers: seq<bool>, i: nat)
    requires capacity > 0 && CacheRun(calls, ttl, capacity, states, answers) && i <= |calls|
    ensures TotalVisited(calls, states, i) <= 2 * Insertions(calls, states, i)
    ensures TotalVisited(calls, states, i) + 2 * |states[i].entries| <=
            2 * Insertions(calls, states, i) + 2 * states[i].liveAtLastSweep
  {
    hide Registered;
    if i > 0 {
      SweepsAreAmortized(calls, ttl, capacity, states, answers, i - 1);
      SizeStaysWithinCapacity(calls, ttl, capacity, states, answers, i - 1);
      SizeGrowsByInsertion(states[i - 1], ttl, capacity, calls[i - 1].now, calls[i - 1].key, states[i], answers[i - 1]);
    }
  }

  // --- Growth between sweeps -------------------------------------------------------------------------------

  /** The entries of a cache that are within the window. */
  function LiveEntries(entries: map<Key, nat>, ttl: nat, now: nat): set<Key> {
    set key | key in entries && Age(now, entries[key]) < ttl
  }

  lemma SweepKeepsLive(c: Cache, ttl: nat, capacity: nat, now: nat, key: Key, c': Cache, isNew: bool)
    requires capacity > 0 && |c.entries| <= capacity && Registered(c, ttl, capacity, now, key, c', isNew)
    ensures c'.liveAtLastSweep == if SweepDue(c, key) then |LiveEntries(c.entries, ttl, now)| else c.liveAtLastSweep
    ensures |c'.entries| <= |c.entries| || |c'.entries| <= 2 * c'.liveAtLastSweep + 1
  {
    assert Swept(c.entries, ttl, now).Keys == LiveEntries(c.entries, ttl, now);
    SizeGrowsByInsertion(c, ttl, capacity, now, key, c', isNew);
  }

  /**
   * The cache never holds more than twice the pairs that were within the window at some earlier call, and one
   * more: expired pairs do not pile up.
   */
  lemma {:induction false} GrowthIsBoundedByLive(
      calls: seq<Call>, ttl: nat, capacity: nat, states: seq<Cache>, answers: seq<bool>, i: nat) returns (j: nat)
    requires capacity > 0 && CacheRun(calls, ttl, capacity, states, answers) && 0 < i <= |calls|
    ensures j < i
    ensures states[i].liveAtLastSweep <= |LiveEntries(states[j].entries, ttl, calls[j].now)|
    ensures |states[i].entries| <= 2 * states[i].liveAtLastSweep + 1
    ensures |states[i].entries| <= 2 * |LiveEntries(states[j].entries, ttl, calls[j].now)| + 1
    decreases i
  {
    hide Registered;
    var c, key := states[i - 1], calls[i - 1].key;
    SizeStaysWithinCapacity(calls, ttl, capacity, states, answers, i - 1);
    SweepKeepsLive(c, ttl, capacity, calls[i - 1].now, key, states[i], answers[i - 1]);
    SizeGrowsByInsertion(c, ttl, capacity, calls[i - 1].now, key, states[i], answers[i - 1]);
    j := i - 1;
    if !SweepDue(c, key) && i > 1 {
      j := GrowthIsBoundedByLive(calls, ttl, capacity, states, answers, i - 1);
    }
  }
}
