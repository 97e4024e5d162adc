/** The mutable session stores: the in-memory one and the file-backed wrapper several processes share. */
module SessionStores {
  import opened Text
  import opened Constraints
  import opened Sessions
  import opened LoadCheck

  class InMemorySessionStore {
    var sessions: map<SessionId, Record>
    var byHash: map<TokenHash, SessionId>

    ghost function State(): Store
      reads this
    {
      Store(sessions, byHash)
    }

    constructor ()
      ensures State() == EMPTY_STORE
    {
      sessions, byHash := map[], map[];
    }

    /** Terminates on any contents: each turn visits an id not seen before. */
    method WalkAncestors(r: Record, now: nat) returns (live: bool)
      ensures live <==> AncestorsLive(State(), r, now)
    {
      var seen: set<SessionId> := {};
      var cursor := r.parent;
      while cursor.Some?
        invariant AncestorsLive(State(), r, now) <==> WalkLive(sessions, cursor, seen, now)
        decreases sessions.Keys - seen, cursor.Some?
      {
        var id := cursor.value;
        if id in seen {
          return false;
        }
        if id !in sessions {
          return false;
        }
        if IsDead(sessions[id], now) {
          return false;
        }
        seen := seen + {id};
        cursor := sessions[id].parent;
      }
      return true;
    }

    method ValidateToken(h: TokenHash, now: nat) returns (result: Result<Record, BrokerError>)
      ensures result == Validate(State(), h, now)
    {
      if h !in byHash || byHash[h] !in sessions {
        return Err(InvalidSession);
      }
      var record := sessions[byHash[h]];
      if record.tokenHash != h {
        return Err(InvalidSession);
      }
      if IsDead(record, now) {
        return Err(SessionRevoked);
      }
      var live := WalkAncestors(record, now);
      return if live then Ok(record) else Err(SessionRevoked);
    }

    method InsertRecord(r: Record)
      modifies this
      ensures State() == Insert(old(State()), r)
    {
      sessions := sessions[r.id := r];
      byHash := byHash[r.tokenHash := r.id];
    }

    method CreateSession(agent: string, environment: string, ttl: Option<nat>, now: nat, id: SessionId, h: TokenHash)
      returns (result: Result<SessionId, BrokerError>)
      modifies this
      ensures (State(), result) == Create(old(State()), agent, environment, ttl, now, id, h)
    {
      var expiresAt := ExpiryAfter(ttl, now);
      if h in byHash {
        return Err(Entropy);
      }
      InsertRecord(Record(id, agent, environment, h, false, expiresAt, None, None));
      return Ok(id);
    }

    method RevokeSession(id: SessionId) returns (result: Result<(), BrokerError>)
      modifies this
      ensures (State(), result) == Revoke(old(State()), id)
    {
      if id !in sessions {
        return Err(InvalidSession);
      }
      sessions := sessions[id := sessions[id].(revoked := true)];
      return Ok(());
    }

    method DelegateSession(parent: DelegationParent, requested: SessionConstraints, now: nat, id: SessionId,
        h: TokenHash)
      returns (result: Result<SessionId, BrokerError>)
      modifies this
      ensures (State(), result) == Delegate(old(State()), parent, requested, now, id, h)
    {
      if !ValidPaths(requested) {
        return Err(InvalidDelegation);
      }
      var found := FindParent(Store(sessions, byHash), parent);
      if found.None? {
        return Err(InvalidSession);
      }
      if IsDead(found.value, now) {
        return Err(SessionRevoked);
      }
      var narrowed := NarrowFrom(found.value.constraints, requested);
      if IsUnconstrained(narrowed) {
        return Err(InvalidDelegation);
      }
      if h in byHash {
        return Err(Entropy);
      }
      var p := found.value;
      InsertRecord(Record(id, p.agent, p.environment, h, false, None, Some(p.id), Some(narrowed)));
      return Ok(id);
    }

    method Consume(h: TokenHash, now: nat) returns (result: Result<bool, BrokerError>)
      modifies this
      ensures (State(), result) == ConsumeBudget(old(State()), h, now)
    {
      if h !in byHash || byHash[h] !in sessions {
        return Err(InvalidSession);
      }
      var record := sessions[byHash[h]];
      var live := WalkAncestors(record, now);
      if IsDead(record, now) || !live {
        return Err(SessionRevoked);
      }
      if Budget(record).None? {
        return Ok(false);
      }
      if Budget(record).value == 0 {
        return Err(BudgetExhausted);
      }
      sessions := sessions[byHash[h] := Spend(record)];
      return Ok(true);
    }

    method Perform(now: nat, op: Op) returns (answer: Answer, mutated: bool)
      modifies this
      ensures Outcome(State(), answer, mutated) == Apply(old(State()), now, op)
    {
      match op
      case OpCreate(agent, environment, ttl, id, h) =>
        var r := CreateSession(agent, environment, ttl, now, id, h);
        answer, mutated := if r.Ok? then Minted(r.value) else Failed(r.error), r.Ok?;
      case OpDelegate(parent, requested, id, h) =>
        var r := DelegateSession(parent, requested, now, id, h);
        answer, mutated := if r.Ok? then Minted(r.value) else Failed(r.error), r.Ok?;
      case OpRevoke(id) =>
        var r := RevokeSession(id);
        answer, mutated := if r.Ok? then Revoked else Failed(r.error), r.Ok?;
      case OpConsume(h) =>
        var r := Consume(h, now);
        answer, mutated := if r.Ok? then Spent else Failed(r.error), r == Ok(true);
      case OpValidate(h) =>
        var r := ValidateToken(h, now);
        answer, mutated := if r.Ok? then Session(r.value) else Failed(r.error), false;
    }
  }

  /** `verify_delegation_chains`: index the records by id, then check each in file order. */
  method VerifyDelegationChains(records: seq<Record>) returns (tamper: Option<Tamper>)
    ensures tamper == Verify(records)
  {
    var byId: map<SessionId, Record> := map[];
    for i := 0 to |records|
      invariant byId == Load(records[..i]).sessions
    {
      assert records[..i + 1][..i] == records[..i];
      byId := byId[records[i].id := records[i]];
    }
    assert records[..|records|] == records;
    for i := 0 to |records|
      invariant FirstTamper(byId, records) == FirstTamper(byId, records[i..])
    {
      var t := CheckRecord(byId, records[i]);
      assert records[i..][1..] == records[i + 1..];
      if t.Some? {
        return t;
      }
    }
    return None;
  }

  /** The shared file; `None` while it does not exist. Holding the lock makes each access one step. */
  class Disk {
    var file: Option<seq<Record>>

    constructor ()
      ensures file == None
    {
      file := None;
    }
  }

  function RecordsOf(file: Option<seq<Record>>): seq<Record> {
    if file.None? then [] else file.value
  }

  /** One locked operation: reload, check, run in memory, and write back only after a mutation. */
  ghost predicate FileStep(file: Option<seq<Record>>, now: nat, op: Op, file': Option<seq<Record>>, answer: Answer) {
    if !Accepted(RecordsOf(file)) then file' == file && answer == Failed(Tampered)
    else
      var outcome := Apply(Load(RecordsOf(file)), now, op);
      && answer == outcome.answer
      && (if outcome.mutated then file'.Some? && Lists(file'.value, outcome.store) else file' == file)
  }

  class FileSessionStore {
    const disk: Disk

    constructor (disk: Disk)
      ensures this.disk == disk
    {
      this.disk := disk;
    }

    method LoadInto(inner: InMemorySessionStore, records: seq<Record>)
      requires inner.State() == EMPTY_STORE
      modifies inner
      ensures inner.State() == Load(records)
    {
      for i := 0 to |records|
        invariant inner.State() == Load(records[..i])
      {
        assert records[..i + 1][..i] == records[..i];
        inner.InsertRecord(records[i]);
      }
      assert records[..|records|] == records;
    }

    method Snapshot(inner: InMemorySessionStore) returns (records: seq<Record>)
      requires forall id | id in inner.sessions :: inner.sessions[id].id == id
      ensures Lists(records, inner.State())
    {
      records := [];
      var todo := inner.sessions.Keys;
      while todo != {}
        invariant todo <= inner.sessions.Keys
        invariant forall r | r in records :: r.id in inner.sessions && inner.sessions[r.id] == r
        invariant forall id | id in inner.sessions && id !in todo :: inner.sessions[id] in records
      {
        var id :| id in todo;
        records := records + [inner.sessions[id]];
        todo := todo - {id};
      }
    }

    lemma ApplyKeepsIds(st: Store, now: nat, op: Op)
      requires forall id | id in st.sessions :: st.sessions[id].id == id
      ensures forall id | id in Apply(st, now, op).store.sessions :: Apply(st, now, op).store.sessions[id].id == id
    {
      hide WalkLive, Constraints.Narrow, Constraints.ValidPaths;
    }

    method WithLocked(now: nat, op: Op) returns (answer: Answer)
      modifies disk
      ensures FileStep(old(disk.file), now, op, disk.file, answer)
    {
      hide Apply, Load, FirstTamper, Lists;
      var records := RecordsOf(disk.file);
      var tamper := VerifyDelegationChains(records);
      if tamper.Some? {
        return Failed(Tampered);
      }
      var inner := new InMemorySessionStore();
      LoadInto(inner, records);
      var mutated;
      answer, mutated := inner.Perform(now, op);
      if mutated {
        LoadedRecordsAreListed(records);
        ApplyKeepsIds(Load(records), now, op);
        var snapshot := Snapshot(inner);
        disk.file := Some(snapshot);
      }
    }
  }

  // --- Many instances, one file ----------------------------------------------------------------

  /** A locked operation by one of the instances open on the file. */
  datatype Call = Call(instance: nat, timed: Timed)

  function OpsOf(calls: seq<Call>): seq<Timed> {
    seq(|calls|, i requires 0 <= i < |calls| => calls[i].timed)
  }

  /** `files[i]` is the file before call `i`, the first listing `start`; instances keep nothing between calls. */
  ghost predicate FileRun(start: Store, calls: seq<Call>, files: seq<Option<seq<Record>>>, answers: seq<Answer>) {
    && |files| == |calls| + 1
    && |answers| == |calls|
    && Lists(RecordsOf(files[0]), start)
    && forall i | 0 <= i < |calls| ::
         FileStep(files[i], calls[i].timed.now, calls[i].timed.op, files[i + 1], answers[i])
  }

  /** A store without its file starts empty. */
  lemma MissingFileListsEmptyStore()
    ensures Lists(RecordsOf(None), EMPTY_STORE) && Inv(EMPTY_STORE)
  {
  }

  function StoreAt(start: Store, ops: seq<Timed>, i: nat): Store
    requires i <= |ops|
  {
    StoreAfter(start, ops[..i])
  }

  predicate NestedUpTo(start: Store, ops: seq<Timed>, i: nat)
    requires i <= |ops|
  {
    forall j | 0 <= j <= i :: BudgetsNested(StoreAt(start, ops, j))
  }

  lemma {:induction false} StoreAfterSnoc(st: Store, ops: seq<Timed>, last: Timed)
    ensures StoreAfter(st, ops + [last]) == Apply(StoreAfter(st, ops), last.now, last.op).store
    ensures FreshRun(st, ops + [last]) ==> FreshRun(st, ops) && Fresh(StoreAfter(st, ops), last.op)
    decreases |ops|
  {
    if ops == [] {
      assert (ops + [last])[1..] == [];
    } else {
      assert (ops + [last])[1..] == ops[1..] + [last];
      StoreAfterSnoc(Apply(st, ops[0].now, ops[0].op).store, ops[1..], last);
    }
  }

  lemma {:induction false} FreshPrefix(start: Store, ops: seq<Timed>, i: nat)
    requires FreshRun(start, ops) && i <= |ops|
    ensures FreshRun(start, ops[..i])
    decreases |ops| - i
  {
    if i < |ops| {
      FreshPrefix(start, ops, i + 1);
      assert ops[..i + 1] == ops[..i] + [ops[i]];
      StoreAfterSnoc(start, ops[..i], ops[i]);
    } else {
      assert ops[..i] == ops;
    }
  }

  lemma StoreAtSnoc(start: Store, ops: seq<Timed>, i: nat)
    requires FreshRun(start, ops) && i < |ops|
    ensures StoreAt(start, ops, i + 1) == Apply(StoreAt(start, ops, i), ops[i].now, ops[i].op).store
    ensures Fresh(StoreAt(start, ops, i), ops[i].op)
  {
    FreshPrefix(start, ops, i + 1);
    assert ops[..i + 1] == ops[..i] + [ops[i]];
    StoreAfterSnoc(start, ops[..i], ops[i]);
  }

  lemma UnmutatedStoreIsSame(st: Store, now: nat, op: Op)
    requires !Apply(st, now, op).mutated
    ensures Apply(st, now, op).store == st
  {
  }

  /** A locked operation on a file listing `st` is the in-memory operation on `st`, if the file is accepted at all. */
  lemma FileStepRefinesApply(file: Option<seq<Record>>, now: nat, op: Op, file': Option<seq<Record>>, answer: Answer,
      st: Store)
    requires FileStep(file, now, op, file', answer) && Inv(st) && Lists(RecordsOf(file), st) && Fresh(st, op)
    ensures Accepted(RecordsOf(file)) <==> BudgetsNested(st)
    ensures if BudgetsNested(st)
            then answer == Apply(st, now, op).answer && Lists(RecordsOf(file'), Apply(st, now, op).store)
            else answer == Failed(Tampered) && file' == file
  {
    ReloadAcceptedIffBudgetsNested(RecordsOf(file), st);
    if !Apply(st, now, op).mutated {
      UnmutatedStoreIsSame(st, now, op);
    }
  }

  // What a locked call does, said on the store its file lists

  /** `works` says whether the lock, the file and its replacement could be had; a failed call replaces nothing. */
  ghost predicate LockedStep(
      file: Option<seq<Record>>, now: nat, op: Op, works: bool, file': Option<seq<Record>>, answer: Answer)
  {
    if works then FileStep(file, now, op, file', answer) else file' == file && answer == Failed(Unavailable)
  }

  function Refusal(st: Store, works: bool): Option<BrokerError> {
    if !works then Some(Unavailable) else if !BudgetsNested(st) then Some(Tampered) else None
  }

  function LockedApply(st: Store, now: nat, op: Op, works: bool): Outcome {
    var refusal := Refusal(st, works);
    if refusal.Some? then Outcome(st, Failed(refusal.value), false) else Apply(st, now, op)
  }

  function LockedValidate(st: Store, h: TokenHash, now: nat, works: bool): Result<Record, BrokerError> {
    var refusal := Refusal(st, works);
    if refusal.Some? then Err(refusal.value) else Validate(st, h, now)
  }

  function LockedConsume(st: Store, h: TokenHash, now: nat, works: bool): (Store, Result<bool, BrokerError>) {
    var refusal := Refusal(st, works);
    if refusal.Some? then (st, Err(refusal.value)) else ConsumeBudget(st, h, now)
  }

  /** A locked call on a file that lists `st` answers so, and leaves a file that lists the new store. */
  lemma LockedStepIsLockedApply(
      file: Option<seq<Record>>, now: nat, op: Op, works: bool, file': Option<seq<Record>>, answer: Answer, st: Store)
    requires LockedStep(file, now, op, works, file', answer)
    requires Inv(st) && Lists(RecordsOf(file), st) && Fresh(st, op)
    ensures answer == LockedApply(st, now, op, works).answer
    ensures Lists(RecordsOf(file'), LockedApply(st, now, op, works).store)
    ensures op.OpValidate? ==>
              var r := LockedValidate(st, op.hash, now, works);
              answer == if r.Ok? then Session(r.value) else Failed(r.error)
    ensures op.OpConsume? ==>
              var (st', r) := LockedConsume(st, op.hash, now, works);
              answer == (if r.Ok? then Spent else Failed(r.error)) && Lists(RecordsOf(file'), st')
  {
    hide Lists, Validate, ConsumeBudget;
    if works {
      FileStepRefinesApply(file, now, op, file', answer, st);
    }
  }

  /** The file lists the in-memory store while budgets have always nested, and is refused once they have not. */
  ghost predicate Follows(start: Store, file: Option<seq<Record>>, ops: seq<Timed>, i: nat)
    requires i <= |ops|
  {
    if NestedUpTo(start, ops, i) then Lists(RecordsOf(file), StoreAt(start, ops, i)) else !Accepted(RecordsOf(file))
  }

  lemma StoreAtInv(start: Store, ops: seq<Timed>, i: nat)
    requires Inv(start) && FreshRun(start, ops) && i <= |ops|
    ensures Inv(StoreAt(start, ops, i))
  {
    FreshPrefix(start, ops, i);
    RunKeepsInv(start, ops[..i]);
  }

  lemma NestedUpToNext(start: Store, ops: seq<Timed>, i: nat)
    requires i < |ops|
    ensures NestedUpTo(start, ops, i + 1) <==> NestedUpTo(start, ops, i) && BudgetsNested(StoreAt(start, ops, i + 1))
  {
  }

  lemma FollowsNext(
      start: Store, file: Option<seq<Record>>, file': Option<seq<Record>>, answer: Answer, ops: seq<Timed>, i: nat)
    requires Inv(start) && FreshRun(start, ops) && i < |ops| && Follows(start, file, ops, i)
    requires FileStep(file, ops[i].now, ops[i].op, file', answer)
    ensures Follows(start, file', ops, i + 1)
    ensures answer == if NestedUpTo(start, ops, i) then Apply(StoreAt(start, ops, i), ops[i].now, ops[i].op).answer
                      else Failed(Tampered)
  {
    NestedUpToNext(start, ops, i);
    if NestedUpTo(start, ops, i) {
      StoreAtInv(start, ops, i);
      StoreAtInv(start, ops, i + 1);
      StoreAtSnoc(start, ops, i);
      FileStepRefinesApply(file, ops[i].now, ops[i].op, file', answer, StoreAt(start, ops, i));
      ReloadAcceptedIffBudgetsNested(RecordsOf(file'), StoreAt(start, ops, i + 1));
    }
  }

  lemma FollowsStart(start: Store, file: Option<seq<Record>>, ops: seq<Timed>)
    requires Inv(start) && Lists(RecordsOf(file), start)
    ensures Follows(start, file, ops, 0)
  {
    assert StoreAt(start, ops, 0) == start;
    ReloadAcceptedIffBudgetsNested(RecordsOf(file), start);
  }

  lemma {:induction false} FileFollowsMemory(
      start: Store, calls: seq<Call>, files: seq<Option<seq<Record>>>, answers: seq<Answer>, i: nat)
    requires Inv(start) && FileRun(start, calls, files, answers) && FreshRun(start, OpsOf(calls)) && i <= |calls|
    ensures Follows(start, files[i], OpsOf(calls), i)
  {
    hide Follows, FileStep, FreshRun;
    var ops := OpsOf(calls);
    if i == 0 {
      FollowsStart(start, files[0], ops);
    } else {
      FileFollowsMemory(start, calls, files, answers, i - 1);
      FollowsNext(start, files[i - 1], files[i], answers[i - 1], ops, i - 1);
    }
  }

  /**
   * For every interleaving of calls by any number of instances, on any file that lists a store with the
   * invariant: each answer is the one a single in-memory store gives to the same calls in lock order, up to
   * the first point at which some child may outspend its parent; from then on every call is refused.
   */
  lemma InstancesActAsOneStore(
      start: Store, calls: seq<Call>, files: seq<Option<seq<Record>>>, answers: seq<Answer>, i: nat)
    requires Inv(start) && FileRun(start, calls, files, answers) && FreshRun(start, OpsOf(calls)) && i < |calls|
    ensures var ops := OpsOf(calls);
            answers[i] ==
            if NestedUpTo(start, ops, i) then Apply(StoreAt(start, ops, i), ops[i].now, ops[i].op).answer
            else Failed(Tampered)
  {
    FileFollowsMemory(start, calls, files, answers, i);
    FollowsNext(start, files[i], files[i + 1], answers[i], OpsOf(calls), i);
  }

  /** A token refused as revoked through one instance is never validated through any instance afterwards. */
  lemma RefusedByOneRefusedByAll(
      start: Store, calls: seq<Call>, files: seq<Option<seq<Record>>>, answers: seq<Answer>, i: nat, j: nat)
    requires Inv(start) && FileRun(start, calls, files, answers) && FreshRun(start, OpsOf(calls)) && i < j < |calls|
    requires calls[i].timed.now <= calls[j].timed.now
    requires calls[i].timed.op.OpValidate? && calls[j].timed.op == calls[i].timed.op
    requires answers[i] == Failed(SessionRevoked)
    ensures answers[j] == Failed(SessionRevoked) || answers[j] == Failed(Tampered)
  {
    var ops := OpsOf(calls);
    InstancesActAsOneStore(start, calls, files, answers, i);
    InstancesActAsOneStore(start, calls, files, answers, j);
    StoreAtInv(start, ops, i);
    RunSplits(start, ops, i, j);
    RefusedStaysRefused(StoreAt(start, ops, i), ops[i..j], ops[i].op.hash, ops[i].now, ops[j].now);
  }

  lemma {:induction false} RunSplits(start: Store, ops: seq<Timed>, i: nat, j: nat)
    requires FreshRun(start, ops) && i <= j <= |ops|
    ensures StoreAfter(StoreAt(start, ops, i), ops[i..j]) == StoreAt(start, ops, j)
    ensures FreshRun(StoreAt(start, ops, i), ops[i..j])
    decreases j - i
  {
    if i < j {
      RunSplits(start, ops, i + 1, j);
      StoreAtSnoc(start, ops, i);
      assert ops[i..j][1..] == ops[i + 1..j];
    }
  }
}
