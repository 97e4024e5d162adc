/** Session records, the store they live in and what each store operation answers and leaves behind. */
module Sessions {
  import opened Text
  import opened PathGlob
  import opened Constraints

  type SessionId = string
  type TokenHash = string

  /** The store keeps a token's verifier hash, never the token. */
  datatype Record = Record(
    id: SessionId,
    agent: string,
    environment: string,
    tokenHash: TokenHash,
    revoked: bool,
    expiresAt: Option<nat>,
    parent: Option<SessionId>,
    constraints: Option<SessionConstraints>)

  datatype Store = Store(sessions: map<SessionId, Record>, byHash: map<TokenHash, SessionId>)

  datatype BrokerError =
    | InvalidSession | SessionRevoked | BudgetExhausted | InvalidDelegation | Entropy | Tampered | Unavailable

  const EMPTY_STORE := Store(map[], map[])

  const U64_MAX := 0xFFFF_FFFF_FFFF_FFFF

  predicate IsDead(r: Record, now: nat) {
    r.revoked || (r.expiresAt.Some? && r.expiresAt.value <= now)
  }

  /** The walk of `ancestors_live`, with the ids already visited in `seen`. */
  predicate WalkLive(sessions: map<SessionId, Record>, cursor: Option<SessionId>, seen: set<SessionId>, now: nat)
    decreases sessions.Keys - seen
  {
    match cursor
    case None => true
    case Some(id) =>
      && id !in seen
      && id in sessions
      && !IsDead(sessions[id], now)
      && WalkLive(sessions, sessions[id].parent, seen + {id}, now)
  }

  predicate AncestorsLive(st: Store, r: Record, now: nat) {
    WalkLive(st.sessions, r.parent, {}, now)
  }

  function Lookup(st: Store, h: TokenHash): Option<Record> {
    if h in st.byHash && st.byHash[h] in st.sessions then Some(st.sessions[st.byHash[h]]) else None
  }

  function Validate(st: Store, h: TokenHash, now: nat): Result<Record, BrokerError> {
    match Lookup(st, h)
    case None => Err(InvalidSession)
    case Some(r) =>
      if r.tokenHash != h then Err(InvalidSession)
      else if IsDead(r, now) || !AncestorsLive(st, r, now) then Err(SessionRevoked)
      else Ok(r)
  }

  function Insert(st: Store, r: Record): Store {
    Store(st.sessions[r.id := r], st.byHash[r.tokenHash := r.id])
  }

  function ExpiryAfter(ttl: Option<nat>, now: nat): Option<nat> {
    if ttl.None? then None else Some(if now + ttl.value <= U64_MAX then now + ttl.value else U64_MAX)
  }

  /** A token whose verifier is already indexed is refused; the id is not checked for collision. */
  function Create(st: Store, agent: string, environment: string, ttl: Option<nat>, now: nat, id: SessionId,
      h: TokenHash)
    : (Store, Result<SessionId, BrokerError>)
  {
    if h in st.byHash then (st, Err(Entropy))
    else (Insert(st, Record(id, agent, environment, h, false, ExpiryAfter(ttl, now), None, None)), Ok(id))
  }

  function Revoke(st: Store, id: SessionId): (Store, Result<(), BrokerError>) {
    if id !in st.sessions then (st, Err(InvalidSession))
    else (st.(sessions := st.sessions[id := st.sessions[id].(revoked := true)]), Ok(()))
  }

  datatype DelegationParent = ById(id: SessionId) | ByToken(hash: TokenHash)

  function FindParent(st: Store, parent: DelegationParent): Option<Record> {
    match parent
    case ById(id) => if id in st.sessions then Some(st.sessions[id]) else None
    case ByToken(h) => Lookup(st, h)
  }

  function NarrowFrom(parent: Option<SessionConstraints>, requested: SessionConstraints): SessionConstraints {
    if parent.None? then requested else Narrow(parent.value, requested)
  }

  /** Only the parent itself is checked for life here; its ancestors are checked on every later use. */
  function Delegate(st: Store, parent: DelegationParent, requested: SessionConstraints, now: nat, id: SessionId,
      h: TokenHash)
    : (Store, Result<SessionId, BrokerError>)
  {
    if !ValidPaths(requested) then (st, Err(InvalidDelegation))
    else
      match FindParent(st, parent)
      case None => (st, Err(InvalidSession))
      case Some(p) =>
        var narrowed := NarrowFrom(p.constraints, requested);
        if IsDead(p, now) then (st, Err(SessionRevoked))
        else if IsUnconstrained(narrowed) then (st, Err(InvalidDelegation))
        else if h in st.byHash then (st, Err(Entropy))
        else (Insert(st, Record(id, p.agent, p.environment, h, false, None, Some(p.id), Some(narrowed))), Ok(id))
  }

  function Budget(r: Record): Option<nat> {
    if r.constraints.None? then None else r.constraints.value.remaining
  }

  function Spend(r: Record): Record
    requires Budget(r).Some? && Budget(r).value > 0
  {
    r.(constraints := Some(r.constraints.value.(remaining := Some(Budget(r).value - 1))))
  }

  /** `Ok(true)` when the stored budget was decremented; the verifier is not compared again. */
  function ConsumeBudget(st: Store, h: TokenHash, now: nat): (Store, Result<bool, BrokerError>) {
    match Lookup(st, h)
    case None => (st, Err(InvalidSession))
    case Some(r) =>
      if IsDead(r, now) || !AncestorsLive(st, r, now) then (st, Err(SessionRevoked))
      else
        match Budget(r)
        case None => (st, Ok(false))
        case Some(n) =>
          if n == 0 then (st, Err(BudgetExhausted))
          else (st.(sessions := st.sessions[st.byHash[h] := Spend(r)]), Ok(true))
  }

  // --- One request to the store -------------------------------------------------------------

  datatype Op =
    | OpCreate(agent: string, environment: string, ttl: Option<nat>, id: SessionId, hash: TokenHash)
    | OpDelegate(parent: DelegationParent, requested: SessionConstraints, id: SessionId, hash: TokenHash)
    | OpRevoke(id: SessionId)
    | OpConsume(hash: TokenHash)
    | OpValidate(hash: TokenHash)

  datatype Answer = Minted(id: SessionId) | Revoked | Spent | Session(record: Record) | Failed(error: BrokerError)

  /** The operation, its answer, and whether the file-backed wrapper must persist. */
  datatype Outcome = Outcome(store: Store, answer: Answer, mutated: bool)

  function Apply(st: Store, now: nat, op: Op): Outcome {
    match op
    case OpCreate(agent, environment, ttl, id, h) =>
      var (st', r) := Create(st, agent, environment, ttl, now, id, h);
      Outcome(st', if r.Ok? then Minted(r.value) else Failed(r.error), r.Ok?)
    case OpDelegate(parent, requested, id, h) =>
      var (st', r) := Delegate(st, parent, requested, now, id, h);
      Outcome(st', if r.Ok? then Minted(r.value) else Failed(r.error), r.Ok?)
    case OpRevoke(id) =>
      var (st', r) := Revoke(st, id);
      Outcome(st', if r.Ok? then Revoked else Failed(r.error), r.Ok?)
    case OpConsume(h) =>
      var (st', r) := ConsumeBudget(st, h, now);
      Outcome(st', if r.Ok? then Spent else Failed(r.error), r == Ok(true))
    case OpValidate(h) =>
      var r := Validate(st, h, now);
      Outcome(st, if r.Ok? then Session(r.value) else Failed(r.error), false)
  }

  /** Generated ids do not collide with stored ones. */
  predicate Fresh(st: Store, op: Op) {
    && (op.OpCreate? ==> op.id !in st.sessions)
    && (op.OpDelegate? ==> op.id !in st.sessions)
  }

  datatype Timed = Timed(now: nat, op: Op)

  function StoreAfter(st: Store, ops: seq<Timed>): Store
    decreases |ops|
  {
    if ops == [] then st else StoreAfter(Apply(st, ops[0].now, ops[0].op).store, ops[1..])
  }

  predicate FreshRun(st: Store, ops: seq<Timed>)
    decreases |ops|
  {
    ops != [] ==> Fresh(st, ops[0].op) && FreshRun(Apply(st, ops[0].now, ops[0].op).store, ops[1..])
  }

  // --- The chain walk is exactly the existence of a live chain --------------------------------

  /** `chain` lists the ancestors in order, all live, and ends at a record without a parent. */
  predicate LiveChain(sessions: map<SessionId, Record>, cursor: Option<SessionId>, chain: seq<SessionId>, now: nat)
    decreases |chain|
  {
    if chain == [] then cursor.None?
    else
      && cursor == Some(chain[0])
      && chain[0] in sessions
      && !IsDead(sessions[chain[0]], now)
      && LiveChain(sessions, sessions[chain[0]].parent, chain[1..], now)
  }

  lemma {:induction false} WalkFindsChain(
      sessions: map<SessionId, Record>, cursor: Option<SessionId>, seen: set<SessionId>, now: nat)
      returns (chain: seq<SessionId>)
    requires WalkLive(sessions, cursor, seen, now)
    ensures LiveChain(sessions, cursor, chain, now)
    decreases sessions.Keys - seen
  {
    if cursor.None? {
      chain := [];
    } else {
      var rest := WalkFindsChain(sessions, sessions[cursor.value].parent, seen + {cursor.value}, now);
      chain := [cursor.value] + rest;
    }
  }

  lemma {:induction false} ChainIsUnique(
      sessions: map<SessionId, Record>, cursor: Option<SessionId>, a: seq<SessionId>, b: seq<SessionId>, now: nat)
    requires LiveChain(sessions, cursor, a, now) && LiveChain(sessions, cursor, b, now)
    ensures a == b
    decreases |a|
  {
    if a != [] && b != [] {
      ChainIsUnique(sessions, sessions[a[0]].parent, a[1..], b[1..], now);
    }
  }

  lemma {:induction false} ChainSuffix(
      sessions: map<SessionId, Record>, cursor: Option<SessionId>, chain: seq<SessionId>, now: nat, i: nat)
    requires LiveChain(sessions, cursor, chain, now) && i < |chain|
    ensures LiveChain(sessions, Some(chain[i]), chain[i..], now)
    decreases i
  {
    if i > 0 {
      ChainSuffix(sessions, sessions[chain[0]].parent, chain[1..], now, i - 1);
      assert chain[1..][i - 1..] == chain[i..];
    }
  }

  lemma ChainNeverRepeats(sessions: map<SessionId, Record>, cursor: Option<SessionId>, chain: seq<SessionId>, now: nat)
    requires LiveChain(sessions, cursor, chain, now) && chain != []
    ensures chain[0] !in chain[1..]
  {
    if chain[0] in chain[1..] {
      var i :| 0 < i < |chain| && chain[i] == chain[0];
      ChainSuffix(sessions, cursor, chain, now, i);
      ChainIsUnique(sessions, cursor, chain, chain[i..], now);
      assert false;
    }
  }

  lemma {:induction false} ChainDrivesWalk(
      sessions: map<SessionId, Record>, cursor: Option<SessionId>, chain: seq<SessionId>, seen: set<SessionId>,
      now: nat)
    requires LiveChain(sessions, cursor, chain, now)
    requires forall id | id in chain :: id !in seen
    ensures WalkLive(sessions, cursor, seen, now)
    decreases |chain|
  {
    if chain != [] {
      ChainNeverRepeats(sessions, cursor, chain, now);
      ChainDrivesWalk(sessions, sessions[chain[0]].parent, chain[1..], seen + {chain[0]}, now);
    }
  }

  /** For any records at all, cyclic ones included, the walk succeeds exactly when a live chain exists. */
  lemma WalkIsLiveChain(sessions: map<SessionId, Record>, cursor: Option<SessionId>, now: nat)
    ensures WalkLive(sessions, cursor, {}, now) <==> exists chain :: LiveChain(sessions, cursor, chain, now)
  {
    if WalkLive(sessions, cursor, {}, now) {
      var found := WalkFindsChain(sessions, cursor, {}, now);
      assert exists chain :: LiveChain(sessions, cursor, chain, now);
    }
    forall chain | LiveChain(sessions, cursor, chain, now) ensures WalkLive(sessions, cursor, {}, now) {
      ChainDrivesWalk(sessions, cursor, chain, {}, now);
    }
  }

  // --- What every operation keeps ---------------------------------------------------------------

  /** The two maps mirror each other. */
  predicate Indexed(st: Store) {
    && (forall id | id in st.sessions ::
          && st.sessions[id].id == id && st.sessions[id].tokenHash in st.byHash
          && st.byHash[st.sessions[id].tokenHash] == id)
    && (forall h | h in st.byHash :: st.byHash[h] in st.sessions && st.sessions[st.byHash[h]].tokenHash == h)
  }

  /** A record is a root without constraints, or a child of its parent's identity, constrained, within its scope. */
  predicate Linked(sessions: map<SessionId, Record>, r: Record) {
    match (r.parent, r.constraints)
    case (None, None) => true
    case (Some(p), Some(c)) =>
      && p in sessions
      && r.agent == sessions[p].agent && r.environment == sessions[p].environment
      && !IsUnconstrained(c)
      && ValidPaths(c)
      && (sessions[p].constraints.Some? ==>
            && ScopeWithin(sessions[p].constraints.value, c)
            && (Budget(sessions[p]).Some? ==> c.remaining.Some?))
    case _ => false
  }

  predicate Inv(st: Store) {
    Indexed(st) && forall id | id in st.sessions :: Linked(st.sessions, st.sessions[id])
  }

  /** No child may spend more than its parent still may. */
  predicate BudgetsNested(st: Store) {
    forall id | id in st.sessions && st.sessions[id].parent.Some? && st.sessions[id].parent.value in st.sessions ::
      BudgetWithin(Budget(st.sessions[st.sessions[id].parent.value]), Budget(st.sessions[id]))
  }

  /** What delegation stores is within the parent's scope and budget. */
  lemma NarrowedChildIsLinked(sessions: map<SessionId, Record>, p: Record, requested: SessionConstraints, child: Record)
    requires p.id in sessions && sessions[p.id] == p && Linked(sessions, p) && ValidPaths(requested)
    requires child.parent == Some(p.id) && child.constraints == Some(NarrowFrom(p.constraints, requested))
    requires child.agent == p.agent && child.environment == p.environment && !IsUnconstrained(child.constraints.value)
    ensures Linked(sessions, child) && BudgetWithin(Budget(p), Budget(child))
  {
    if p.constraints.Some? {
      NarrowIsIdempotent(p.constraints.value, requested);
      NarrowFixpointIsContainment(p.constraints.value, child.constraints.value);
    }
  }

  lemma InsertKeepsInv(st: Store, r: Record)
    requires Inv(st) && r.id !in st.sessions && r.tokenHash !in st.byHash
    requires Linked(st.sessions, r)
    requires r.parent.Some? ==> BudgetWithin(Budget(st.sessions[r.parent.value]), Budget(r))
    ensures Inv(Insert(st, r))
    ensures BudgetsNested(st) ==> BudgetsNested(Insert(st, r))
  {
    hide ScopeWithin, ValidPaths, IsUnconstrained, BudgetWithin;
    var st' := Insert(st, r);
    forall id | id in st'.sessions ensures Linked(st'.sessions, st'.sessions[id]) {
      assert id == r.id || Linked(st.sessions, st.sessions[id]);
    }
  }

  lemma DelegateKeepsInv(st: Store, now: nat, op: Op)
    requires Inv(st) && op.OpDelegate? && Fresh(st, op)
    ensures Inv(Apply(st, now, op).store)
    ensures BudgetsNested(st) ==> BudgetsNested(Apply(st, now, op).store)
  {
    hide NarrowFrom, IsUnconstrained, BudgetsNested;
    if Apply(st, now, op).mutated {
      var p := FindParent(st, op.parent).value;
      assert Linked(st.sessions, st.sessions[p.id]);
      var child := Record(op.id, p.agent, p.environment, op.hash, false, None, Some(p.id),
          Some(NarrowFrom(p.constraints, op.requested)));
      NarrowedChildIsLinked(st.sessions, p, op.requested, child);
      InsertKeepsInv(st, child);
    }
  }

  /** Records whose links and scopes agree are linked alike. */
  lemma SameLinks(before: map<SessionId, Record>, after: map<SessionId, Record>)
    requires before.Keys == after.Keys
    requires forall id | id in before :: Linked(before, before[id])
    requires forall id | id in before ::
               && after[id].parent == before[id].parent
               && after[id].agent == before[id].agent && after[id].environment == before[id].environment
               && after[id].constraints == before[id].constraints
    ensures forall id | id in after :: Linked(after, after[id])
  {
    forall id | id in after ensures Linked(after, after[id]) {
      assert Linked(before, before[id]);
    }
  }

  /** A spent record keeps its own link: nothing that links it is in its own remaining budget's value. */
  lemma SpentStaysLinked(sessions: map<SessionId, Record>, r: Record)
    requires Linked(sessions, r) && Budget(r).Some? && Budget(r).value > 0
    ensures Linked(sessions, Spend(r))
  {
    var c, c' := r.constraints.value, Spend(r).constraints.value;
    assert ValidPaths(c') == ValidPaths(c) && !IsUnconstrained(c');
    hide SetWithin, PathsWithin, ValidPaths, IsUnconstrained;
    if r.parent.Some? && sessions[r.parent.value].constraints.Some? {
      assert ScopeWithin(sessions[r.parent.value].constraints.value, c');
    }
  }

  /** A record stays linked when its parent spends. */
  lemma LinkedUnderSpender(sessions: map<SessionId, Record>, id: SessionId, r: Record)
    requires Linked(sessions, r)
    requires id in sessions && Budget(sessions[id]).Some? && Budget(sessions[id]).value > 0
    ensures Linked(sessions[id := Spend(sessions[id])], r)
  {
    hide SetWithin, PathsWithin, ValidPaths, IsUnconstrained;
    if r.parent == Some(id) {
      assert ScopeWithin(Spend(sessions[id]).constraints.value, r.constraints.value);
    }
  }

  lemma CreateKeepsInv(st: Store, now: nat, op: Op)
    requires Inv(st) && op.OpCreate? && Fresh(st, op)
    ensures Inv(Apply(st, now, op).store)
    ensures BudgetsNested(st) ==> BudgetsNested(Apply(st, now, op).store)
  {
    hide BudgetsNested;
    if Apply(st, now, op).mutated {
      InsertKeepsInv(st, Record(op.id, op.agent, op.environment, op.hash, false, ExpiryAfter(op.ttl, now), None, None));
    }
  }

  lemma RevokeKeepsInv(st: Store, id: SessionId)
    requires Inv(st)
    ensures Inv(Revoke(st, id).0)
    ensures BudgetsNested(st) ==> BudgetsNested(Revoke(st, id).0)
  {
    hide Linked;
    SameLinks(st.sessions, Revoke(st, id).0.sessions);
  }

  lemma SpendKeepsInv(st: Store, id: SessionId)
    requires Inv(st) && id in st.sessions && Budget(st.sessions[id]).Some? && Budget(st.sessions[id]).value > 0
    ensures Inv(st.(sessions := st.sessions[id := Spend(st.sessions[id])]))
  {
    hide Linked;
    var spent := st.sessions[id := Spend(st.sessions[id])];
    forall other | other in spent ensures Linked(spent, spent[other]) {
      SpentStaysLinked(st.sessions, st.sessions[id]);
      LinkedUnderSpender(st.sessions, id, if other == id then Spend(st.sessions[id]) else st.sessions[other]);
    }
  }

  lemma ConsumeKeepsInv(st: Store, h: TokenHash, now: nat)
    requires Inv(st)
    ensures Inv(ConsumeBudget(st, h, now).0)
  {
    if ConsumeBudget(st, h, now).1 == Ok(true) {
      SpendKeepsInv(st, st.byHash[h]);
    }
  }

  /** Every operation keeps the invariant; every one but spending keeps budgets nested. */
  lemma ApplyKeepsInv(st: Store, now: nat, op: Op)
    requires Inv(st) && Fresh(st, op)
    ensures Inv(Apply(st, now, op).store)
    ensures !op.OpConsume? && BudgetsNested(st) ==> BudgetsNested(Apply(st, now, op).store)
  {
    match op
    case OpCreate(_, _, _, _, _) => CreateKeepsInv(st, now, op);
    case OpDelegate(_, _, _, _) => DelegateKeepsInv(st, now, op);
    case OpRevoke(id) => RevokeKeepsInv(st, id);
    case OpConsume(h) => ConsumeKeepsInv(st, h, now);
    case OpValidate(_) =>
  }

  lemma {:induction false} RunKeepsInv(st: Store, ops: seq<Timed>)
    requires Inv(st) && FreshRun(st, ops)
    ensures Inv(StoreAfter(st, ops))
    decreases |ops|
  {
    if ops != [] {
      ApplyKeepsInv(st, ops[0].now, ops[0].op);
      RunKeepsInv(Apply(st, ops[0].now, ops[0].op).store, ops[1..]);
    }
  }

  /** Spending keeps budgets nested exactly when no child holds as much as its parent is about to spend from. */
  lemma ConsumeKeepsBudgetsNestedIff(st: Store, h: TokenHash, now: nat)
    requires Inv(st) && BudgetsNested(st) && ConsumeBudget(st, h, now).1 == Ok(true)
    ensures BudgetsNested(ConsumeBudget(st, h, now).0) <==>
            forall id | id in st.sessions && st.sessions[id].parent == Some(st.byHash[h]) && id != st.byHash[h] ::
              Budget(st.sessions[id]) != Budget(st.sessions[st.byHash[h]])
  {
    var spender, st' := st.byHash[h], ConsumeBudget(st, h, now).0;
    if id :| id in st.sessions && st.sessions[id].parent == Some(spender) && id != spender
             && Budget(st.sessions[id]) == Budget(st.sessions[spender]) {
      assert !BudgetWithin(Budget(st'.sessions[spender]), Budget(st'.sessions[id]));
    } else {
      forall id | id in st'.sessions && st'.sessions[id].parent.Some? && st'.sessions[id].parent.value in st'.sessions
        ensures BudgetWithin(Budget(st'.sessions[st'.sessions[id].parent.value]), Budget(st'.sessions[id]))
      {
        assert BudgetWithin(Budget(st.sessions[st.sessions[id].parent.value]), Budget(st.sessions[id]));
      }
    }
  }

  // --- Refusal is permanent ------------------------------------------------------------------------

  /** `after` still holds every record of `before` with the same identity, no more alive than it was. */
  predicate Extends(before: Store, after: Store) {
    && (forall h | h in before.byHash :: h in after.byHash && after.byHash[h] == before.byHash[h])
    && (forall id | id in before.sessions ::
          && id in after.sessions
          && after.sessions[id].tokenHash == before.sessions[id].tokenHash
          && after.sessions[id].parent == before.sessions[id].parent
          && after.sessions[id].expiresAt == before.sessions[id].expiresAt
          && (before.sessions[id].revoked ==> after.sessions[id].revoked))
  }

  lemma ApplyExtends(st: Store, now: nat, op: Op)
    requires Inv(st) && Fresh(st, op)
    ensures Extends(st, Apply(st, now, op).store)
  {
    hide WalkLive, Constraints.Narrow, Constraints.ValidPaths, Constraints.IsUnconstrained, Linked;
  }

  lemma {:induction false} RunExtends(st: Store, ops: seq<Timed>)
    requires Inv(st) && FreshRun(st, ops)
    ensures Extends(st, StoreAfter(st, ops))
    decreases |ops|
  {
    if ops != [] {
      var mid := Apply(st, ops[0].now, ops[0].op).store;
      ApplyKeepsInv(st, ops[0].now, ops[0].op);
      ApplyExtends(st, ops[0].now, ops[0].op);
      RunExtends(mid, ops[1..]);
    }
  }

  /** A chain live later was already live earlier. */
  lemma {:induction false} LiveChainBackwards(
      before: Store, after: Store, cursor: Option<SessionId>, chain: seq<SessionId>, now: nat, later: nat)
    requires Inv(before) && Extends(before, after) && now <= later
    requires cursor.Some? ==> cursor.value in before.sessions
    requires LiveChain(after.sessions, cursor, chain, later)
    ensures LiveChain(before.sessions, cursor, chain, now)
    decreases |chain|
  {
    if chain != [] {
      var r := before.sessions[chain[0]];
      assert Linked(before.sessions, r);
      LiveChainBackwards(before, after, r.parent, chain[1..], now, later);
    }
  }

  /** Liveness of the session a verifier names, as both `validate` and `consume_budget` decide it. */
  predicate TokenLive(st: Store, h: TokenHash, now: nat) {
    var r := Lookup(st, h);
    r.Some? && !IsDead(r.value, now) && AncestorsLive(st, r.value, now)
  }

  lemma DeadTokenStaysDead(before: Store, after: Store, h: TokenHash, now: nat, later: nat)
    requires Inv(before) && Extends(before, after) && now <= later
    requires h in before.byHash && !TokenLive(before, h, now)
    ensures !TokenLive(after, h, later)
  {
    var r := before.sessions[before.byHash[h]];
    if TokenLive(after, h, later) {
      assert Linked(before.sessions, r);
      var chain := WalkFindsChain(after.sessions, r.parent, {}, later);
      LiveChainBackwards(before, after, r.parent, chain, now, later);
      ChainDrivesWalk(before.sessions, r.parent, chain, {}, now);
      assert false;
    }
  }

  /** A token once refused as revoked is refused as revoked after every later run. */
  lemma RefusedStaysRefused(st: Store, ops: seq<Timed>, h: TokenHash, now: nat, later: nat)
    requires Inv(st) && FreshRun(st, ops) && now <= later
    requires Validate(st, h, now) == Err(SessionRevoked)
    ensures Validate(StoreAfter(st, ops), h, later) == Err(SessionRevoked)
  {
    RunExtends(st, ops);
    DeadTokenStaysDead(st, StoreAfter(st, ops), h, now, later);
  }

  // --- Budgets and scopes, operation by operation ----------------------------------------------------

  function BudgetOf(st: Store, h: TokenHash): Option<nat> {
    var r := Lookup(st, h);
    if r.None? then None else Budget(r.value)
  }

  /** Same place in the delegation tree and same constraints, budget aside. */
  predicate SameScope(a: Record, b: Record) {
    && a.id == b.id && a.tokenHash == b.tokenHash && a.parent == b.parent
    && a.constraints.Some? == b.constraints.Some?
    && (a.constraints.Some? ==> a.constraints.value.(remaining := None) == b.constraints.value.(remaining := None))
  }

  lemma SameScopeAdmitsAlike(a: Record, b: Record, q: Request)
    requires SameScope(a, b)
    ensures Admits(a.constraints, q) == Admits(b.constraints, q)
  {
  }

  lemma ApplyKeepsScopes(st: Store, now: nat, op: Op, id: SessionId)
    requires Inv(st) && Fresh(st, op) && id in st.sessions
    ensures var st' := Apply(st, now, op).store; id in st'.sessions && SameScope(st'.sessions[id], st.sessions[id])
  {
  }

  /** Only spending changes a budget, by one, and only the spender's. */
  lemma BudgetsChangeOnlyBySpending(st: Store, now: nat, op: Op, h: TokenHash)
    requires Inv(st) && Fresh(st, op) && h in st.byHash
    ensures var o := Apply(st, now, op);
            if op == OpConsume(h) && o.mutated
            then BudgetOf(st, h).Some? && BudgetOf(st, h).value > 0
                && BudgetOf(o.store, h) == Some(BudgetOf(st, h).value - 1)
            else BudgetOf(o.store, h) == BudgetOf(st, h)
  {
  }

  /** A child's scope admits nothing its parent's does not. */
  lemma ScopeWithinAdmits(parent: SessionConstraints, child: SessionConstraints, q: Request)
    requires ScopeWithin(parent, child) && CheckRequest(child, q).Ok?
    ensures CheckRequest(parent, q).Ok?
  {
    var capped := child.(remaining := NarrowBudget(parent.remaining, child.remaining));
    NarrowFixpointIsContainment(parent, capped);
    NarrowAdmitsOnlyCommon(parent, capped, q);
  }

  /** In a store with the invariant, every ancestor on a live chain admits what the record admits. */
  lemma {:induction false} LiveChainAdmits(st: Store, r: Record, chain: seq<SessionId>, now: nat, q: Request, i: nat)
    requires Inv(st) && Linked(st.sessions, r) && LiveChain(st.sessions, r.parent, chain, now) && i < |chain|
    requires Admits(r.constraints, q)
    ensures chain[i] in st.sessions && Admits(st.sessions[chain[i]].constraints, q)
    decreases i
  {
    var parent := st.sessions[chain[0]];
    if parent.constraints.Some? {
      ScopeWithinAdmits(parent.constraints.value, r.constraints.value, q);
    }
    if i > 0 {
      LiveChainAdmits(st, parent, chain[1..], now, q, i - 1);
    }
  }

  // --- What a token's life depends on ------------------------------------------------------------------

  /** A chain survives changes to records off it. */
  lemma {:induction false} ChainElsewhereKept(
      before: map<SessionId, Record>, after: map<SessionId, Record>, cursor: Option<SessionId>, chain: seq<SessionId>,
      now: nat, id: SessionId)
    requires LiveChain(before, cursor, chain, now) && id !in chain
    requires forall k | k in before && k != id :: k in after && after[k] == before[k]
    ensures LiveChain(after, cursor, chain, now)
    decreases |chain|
  {
    if chain != [] {
      ChainElsewhereKept(before, after, before[chain[0]].parent, chain[1..], now, id);
    }
  }

  /** A token minted directly validates exactly until its expiry. */
  lemma CreatedTokenLivesUntilExpiry(
      st: Store, agent: string, environment: string, ttl: Option<nat>, now: nat, id: SessionId, h: TokenHash,
      later: nat)
    requires h !in st.byHash
    ensures var st' := Create(st, agent, environment, ttl, now, id, h).0;
            Validate(st', h, later).Ok? <==> ttl.None? || (later < now + ttl.value && later < U64_MAX)
    ensures var r := Validate(Create(st, agent, environment, ttl, now, id, h).0, h, later);
            r.Ok? ==> r.value.agent == agent && r.value.environment == environment && r.value.constraints.None?
  {
  }

  /** A delegated token lives exactly as long as its parent's. */
  lemma DelegatedTokenLivesWithParent(st: Store, parent: TokenHash, requested: SessionConstraints, now: nat,
      id: SessionId, h: TokenHash, later: nat)
    requires Inv(st) && id !in st.sessions
    requires Delegate(st, ByToken(parent), requested, now, id, h).1.Ok?
    ensures var st' := Delegate(st, ByToken(parent), requested, now, id, h).0;
            TokenLive(st', h, later) <==> TokenLive(st, parent, later)
  {
    hide Constraints.Narrow, Constraints.ValidPaths, Constraints.IsUnconstrained, Constraints.ScopeWithin;
    var st' := Delegate(st, ByToken(parent), requested, now, id, h).0;
    var p := Lookup(st, parent).value;
    assert st'.sessions[id].parent == Some(p.id) && st'.sessions[p.id] == p;
    if TokenLive(st, parent, later) {
      var chain := WalkFindsChain(st.sessions, p.parent, {}, later);
      assert id !in chain by {
        if id in chain {
          var k :| 0 <= k < |chain| && chain[k] == id;
          ChainSuffix(st.sessions, p.parent, chain, later, k);
          assert false;
        }
      }
      ChainElsewhereKept(st.sessions, st'.sessions, p.parent, chain, later, id);
      assert ([p.id] + chain)[1..] == chain;
      ChainDrivesWalk(st'.sessions, Some(p.id), [p.id] + chain, {}, later);
    }
    if TokenLive(st', h, later) {
      var chain := WalkFindsChain(st'.sessions, Some(p.id), {}, later);
      ApplyExtends(st, now, OpDelegate(ByToken(parent), requested, id, h));
      LiveChainBackwards(st, st', Some(p.id), chain, later, later);
      ChainDrivesWalk(st.sessions, p.parent, chain[1..], {}, later);
    }
  }

  /** Revoking a session kills exactly the tokens of that session and of its descendants. */
  lemma RevocationKillsExactlyDescendants(st: Store, id: SessionId, h: TokenHash, chain: seq<SessionId>, now: nat)
    requires Inv(st) && id in st.sessions && h in st.byHash
    requires TokenLive(st, h, now) && LiveChain(st.sessions, Lookup(st, h).value.parent, chain, now)
    ensures TokenLive(Revoke(st, id).0, h, now) <==> id != Lookup(st, h).value.id && id !in chain
  {
    var st', r := Revoke(st, id).0, Lookup(st, h).value;
    if id != r.id && id !in chain {
      ChainElsewhereKept(st.sessions, st'.sessions, r.parent, chain, now, id);
      ChainDrivesWalk(st'.sessions, r.parent, chain, {}, now);
    } else if id != r.id && TokenLive(st', h, now) {
      var after := WalkFindsChain(st'.sessions, r.parent, {}, now);
      ApplyExtends(st, now, OpRevoke(id));
      assert Linked(st.sessions, r);
      LiveChainBackwards(st, st', r.parent, after, now, now);
      ChainIsUnique(st.sessions, r.parent, chain, after, now);
      var k :| 0 <= k < |after| && after[k] == id;
      ChainSuffix(st'.sessions, r.parent, after, now, k);
      assert false;
    }
  }

  // --- When delegation mints ---------------------------------------------------------------------------

  predicate RevokedOrExpired(r: Record, now: nat) {
    r.revoked || (r.expiresAt.Some? && now >= r.expiresAt.value)
  }

  /** The request, or else the parent, restricts something. */
  predicate RestrictsSomething(p: Record, requested: SessionConstraints) {
    !IsUnconstrained(requested) || (p.constraints.Some? && !IsUnconstrained(p.constraints.value))
  }

  /** The parent named by id, or by the token that was stored for it. */
  predicate Names(st: Store, parent: DelegationParent, id: SessionId) {
    match parent
    case ById(named) => named == id
    case ByToken(h) => h in st.byHash && st.byHash[h] == id
  }

  /** What a child may do: at most what the parent may, and at most what was asked for. */
  ghost predicate ChildAuthority(p: Record, requested: SessionConstraints, child: Record) {
    && child.constraints.Some?
    && (forall q :: Admits(child.constraints, q) ==> Admits(p.constraints, q) && CheckRequest(requested, q).Ok?)
    && (forall n: nat :: Permits(Budget(child), n) <==> Permits(Budget(p), n) && Permits(requested.remaining, n))
  }

  /** One session more, of the parent's identity, linked to it, with its own verifier and without an expiry. */
  ghost predicate MintedUnder(
      st: Store, p: Record, requested: SessionConstraints, id: SessionId, h: TokenHash, st': Store)
  {
    && st'.byHash == st.byHash[h := id]
    && st'.sessions.Keys == st.sessions.Keys + {id}
    && (forall other | other in st.sessions && other != id :: st'.sessions[other] == st.sessions[other])
    && var child := st'.sessions[id];
       && child.id == id && child.tokenHash == h && child.parent == Some(p.id)
       && child.agent == p.agent && child.environment == p.environment
       && !child.revoked && child.expiresAt.None?
       && ChildAuthority(p, requested, child)
  }

  /**
   * Delegation mints exactly when the patterns are valid, the parent `p` exists and is itself neither revoked
   * nor expired, something is restricted, and the verifier is unused. Otherwise it changes nothing and names
   * the first of these that fails.
   */
  lemma DelegationOutcome(st: Store, parent: DelegationParent, p: SessionId, requested: SessionConstraints, now: nat,
      id: SessionId, h: TokenHash)
    requires Inv(st) && (Names(st, parent, p) || (parent.ByToken? && parent.hash !in st.byHash))
    ensures var (st', answer) := Delegate(st, parent, requested, now, id, h);
            if requested.paths.Some? && exists w | w in requested.paths.value :: !ValidPattern(w)
            then st' == st && answer == Err(InvalidDelegation)
            else if !Names(st, parent, p) || p !in st.sessions then st' == st && answer == Err(InvalidSession)
            else if RevokedOrExpired(st.sessions[p], now) then st' == st && answer == Err(SessionRevoked)
            else if !RestrictsSomething(st.sessions[p], requested) then st' == st && answer == Err(InvalidDelegation)
            else if h in st.byHash then st' == st && answer == Err(Entropy)
            else answer == Ok(id) && MintedUnder(st, st.sessions[p], requested, id, h, st')
  {
    hide Narrow, CheckRequest, ChildAuthority, Linked;
    if Names(st, parent, p) && p in st.sessions {
      var r := st.sessions[p];
      if r.constraints.Some? {
        NarrowRestrictsIff(r.constraints.value, requested);
      }
      var child := Record(id, r.agent, r.environment, h, false, None, Some(p),
                          Some(NarrowFrom(r.constraints, requested)));
      ChildHasAuthority(r, requested, child);
    }
  }

  lemma ChildHasAuthority(p: Record, requested: SessionConstraints, child: Record)
    requires child.constraints == Some(NarrowFrom(p.constraints, requested))
    ensures ChildAuthority(p, requested, child)
  {
    if p.constraints.Some? {
      forall q | Admits(child.constraints, q) ensures Admits(p.constraints, q) && CheckRequest(requested, q).Ok? {
        NarrowAdmitsOnlyCommon(p.constraints.value, requested, q);
      }
      forall n: nat
        ensures Permits(Budget(child), n) <==> Permits(Budget(p), n) && Permits(requested.remaining, n)
      {
        NarrowedBudgetIsTheMeet(p.constraints.value, requested, n);
      }
    }
  }

  /** Once revoked or expired, a session is never a parent again, in any later store and however it is named. */
  lemma DeadParentMintsNothing(st: Store, p: SessionId, since: nat, ops: seq<Timed>, parent: DelegationParent,
      requested: SessionConstraints, now: nat, id: SessionId, h: TokenHash)
    requires Inv(st) && FreshRun(st, ops) && p in st.sessions && since <= now
    requires RevokedOrExpired(st.sessions[p], since) && Names(st, parent, p)
    ensures Delegate(StoreAfter(st, ops), parent, requested, now, id, h) ==
            (StoreAfter(st, ops), Err(if ValidPaths(requested) then SessionRevoked else InvalidDelegation))
  {
    hide Delegate, ValidPattern, RestrictsSomething, MintedUnder, Linked;
    RunKeepsInv(st, ops);
    RunExtends(st, ops);
    DelegationOutcome(StoreAfter(st, ops), parent, p, requested, now, id, h);
  }

  /** In particular from the moment of its revocation. */
  lemma RevokedParentMintsNothing(st: Store, p: SessionId, ops: seq<Timed>, parent: DelegationParent,
      requested: SessionConstraints, now: nat, id: SessionId, h: TokenHash)
    requires Inv(st) && p in st.sessions && FreshRun(Revoke(st, p).0, ops) && Names(st, parent, p)
    ensures var later := StoreAfter(Revoke(st, p).0, ops);
            Delegate(later, parent, requested, now, id, h) ==
            (later, Err(if ValidPaths(requested) then SessionRevoked else InvalidDelegation))
  {
    hide Delegate, ValidPaths;
    RevokeKeepsInv(st, p);
    DeadParentMintsNothing(Revoke(st, p).0, p, now, ops, parent, requested, now, id, h);
  }

  // --- What each operation may touch -------------------------------------------------------------------

  /** The session an operation is about, if it names one that exists or is to exist. */
  predicate IsSubject(st: Store, op: Op, id: SessionId) {
    match op
    case OpCreate(_, _, _, minted, _) => id == minted
    case OpDelegate(_, _, minted, _) => id == minted
    case OpRevoke(named) => id == named
    case OpConsume(h) => h in st.byHash && id == st.byHash[h]
    case OpValidate(_) => false
  }

  /**
   * An operation changes no other session and unlearns no verifier; a refused one, a validation and a request
   * without a budget change nothing; and exactly the others are marked for writing.
   */
  lemma ApplyChangesOnlyItsSubject(st: Store, now: nat, op: Op)
    requires Inv(st) && Fresh(st, op)
    ensures var o := Apply(st, now, op);
            && (forall id | id in st.sessions && !IsSubject(st, op, id) ::
                  id in o.store.sessions && o.store.sessions[id] == st.sessions[id])
            && (forall id | id in o.store.sessions :: id in st.sessions || o.answer == Minted(id))
            && (forall h | h in o.store.byHash :: h in st.byHash || ((op.OpCreate? || op.OpDelegate?) && h == op.hash))
            && (o.answer.Failed? || o.answer.Session? ==> o.store == st)
            && (o.mutated <==> o.answer.Minted? || o.answer.Revoked?
                               || (o.answer.Spent? && BudgetOf(st, op.hash).Some?))
            && (!o.mutated ==> o.store == st)
  {
    hide WalkLive, Constraints.Narrow, Constraints.ValidPaths, Constraints.IsUnconstrained, Linked;
  }

  /** A session is created exactly when its verifier is unused, and revoked exactly when it exists. */
  lemma CreateAndRevokeOutcome(st: Store, agent: string, environment: string, ttl: Option<nat>, now: nat,
      id: SessionId, h: TokenHash)
    ensures Create(st, agent, environment, ttl, now, id, h).1 == if h in st.byHash then Err(Entropy) else Ok(id)
    ensures Revoke(st, id).1 == if id in st.sessions then Ok(()) else Err(InvalidSession)
    ensures id in st.sessions ==>
              Revoke(st, id).0.sessions[id] == st.sessions[id].(revoked := true) && Revoke(st, id).0.byHash == st.byHash
  {
  }
}
