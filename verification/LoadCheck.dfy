/** The load-time checker of the session file, and which stores survive a reload. */
module LoadCheck {
  import opened Text
  import opened Constraints
  import opened Sessions

  /** Records are inserted in file order, so the last record of an id and of a verifier wins. */
  function Load(records: seq<Record>): Store {
    if records == [] then EMPTY_STORE
    else Insert(Load(records[..|records| - 1]), records[|records| - 1])
  }

  datatype Tamper = MissingParent(id: SessionId) | WiderThanParent(id: SessionId) | HalfWrittenLink(id: SessionId)

  function CheckRecord(byId: map<SessionId, Record>, r: Record): Option<Tamper> {
    match (r.parent, r.constraints)
    case (None, None) => None
    case (Some(p), Some(c)) =>
      if p !in byId then Some(MissingParent(r.id))
      else if NarrowFrom(byId[p].constraints, c) != c then Some(WiderThanParent(r.id))
      else None
    case _ => Some(HalfWrittenLink(r.id))
  }

  /** The first objection in file order. */
  function FirstTamper(byId: map<SessionId, Record>, records: seq<Record>): (t: Option<Tamper>)
    ensures t.None? <==> forall r | r in records :: CheckRecord(byId, r).None?
    ensures t.Some? ==> exists i | 0 <= i < |records| ::
              t == CheckRecord(byId, records[i]) && forall j | 0 <= j < i :: CheckRecord(byId, records[j]).None?
  {
    if records == [] then None
    else
      var first := CheckRecord(byId, records[0]);
      assert records == [records[0]] + records[1..];
      if first.Some? then first else FirstTamper(byId, records[1..])
  }

  function Verify(records: seq<Record>): Option<Tamper> {
    FirstTamper(Load(records).sessions, records)
  }

  predicate Accepted(records: seq<Record>) {
    Verify(records).None?
  }

  lemma {:induction false} LoadedRecordsAreListed(records: seq<Record>)
    ensures forall id | id in Load(records).sessions ::
              Load(records).sessions[id].id == id && Load(records).sessions[id] in records
    ensures forall r | r in records :: r.id in Load(records).sessions
  {
    if records != [] {
      var n := |records| - 1;
      LoadedRecordsAreListed(records[..n]);
      assert records == records[..n] + [records[n]];
    }
  }

  // --- Containment of authority ------------------------------------------------------------------

  predicate AllChecked(sessions: map<SessionId, Record>) {
    forall id | id in sessions :: CheckRecord(sessions, sessions[id]).None?
  }

  /** A checked record admits and may spend no more than its parent. */
  lemma CheckedChildIsContained(sessions: map<SessionId, Record>, r: Record, q: Request)
    requires CheckRecord(sessions, r).None? && r.parent.Some?
    ensures r.parent.value in sessions
    ensures Admits(r.constraints, q) ==> Admits(sessions[r.parent.value].constraints, q)
    ensures BudgetWithin(Budget(sessions[r.parent.value]), Budget(r))
  {
    var parent := sessions[r.parent.value];
    if parent.constraints.Some? {
      NarrowFixpointIsContainment(parent.constraints.value, r.constraints.value);
      if CheckRequest(r.constraints.value, q).Ok? {
        NarrowAdmitsOnlyCommon(parent.constraints.value, r.constraints.value, q);
      }
    }
  }

  lemma {:induction false} ChainContainsAuthority(
      sessions: map<SessionId, Record>, r: Record, chain: seq<SessionId>, now: nat, q: Request, i: nat)
    requires AllChecked(sessions) && CheckRecord(sessions, r).None?
    requires LiveChain(sessions, r.parent, chain, now) && i < |chain|
    ensures chain[i] in sessions
    ensures !IsDead(sessions[chain[i]], now)
    ensures Admits(r.constraints, q) ==> Admits(sessions[chain[i]].constraints, q)
    ensures BudgetWithin(Budget(sessions[chain[i]]), Budget(r))
    decreases i
  {
    CheckedChildIsContained(sessions, r, q);
    if i > 0 {
      ChainContainsAuthority(sessions, sessions[chain[0]], chain[1..], now, q, i - 1);
    }
  }

  /** What a validated token guarantees: a finite live chain, none of whose members admits or may spend less. */
  ghost predicate ContainedByLiveChain(sessions: map<SessionId, Record>, r: Record, chain: seq<SessionId>, now: nat) {
    && LiveChain(sessions, r.parent, chain, now)
    && forall i | 0 <= i < |chain| ::
         && chain[i] in sessions
         && !IsDead(sessions[chain[i]], now)
         && BudgetWithin(Budget(sessions[chain[i]]), Budget(r))
         && forall q :: Admits(r.constraints, q) ==> Admits(sessions[chain[i]].constraints, q)
  }

  /**
   * Whatever the file holds, hand-edited or cyclic records included: once the checker accepts it, a
   * token that validates belongs to a listed live record, contained by a finite live chain of ancestors.
   */
  lemma AcceptedFileContainsAuthority(records: seq<Record>, h: TokenHash, now: nat) returns (chain: seq<SessionId>)
    requires Accepted(records) && Validate(Load(records), h, now).Ok?
    ensures var r := Validate(Load(records), h, now).value;
            && r in records && r.tokenHash == h && !IsDead(r, now)
            && ContainedByLiveChain(Load(records).sessions, r, chain, now)
  {
    var sessions, r := Load(records).sessions, Validate(Load(records), h, now).value;
    LoadedRecordsAreListed(records);
    chain := WalkFindsChain(sessions, r.parent, {}, now);
    forall i, q | 0 <= i < |chain|
      ensures && chain[i] in sessions
              && !IsDead(sessions[chain[i]], now)
              && BudgetWithin(Budget(sessions[chain[i]]), Budget(r))
              && (Admits(r.constraints, q) ==> Admits(sessions[chain[i]].constraints, q))
    {
      ChainContainsAuthority(sessions, r, chain, now, q, i);
    }
    var anyRequest := Request("", "", "", "", "");
    forall i | 0 <= i < |chain|
      ensures chain[i] in sessions && !IsDead(sessions[chain[i]], now)
              && BudgetWithin(Budget(sessions[chain[i]]), Budget(r))
    {
      ChainContainsAuthority(sessions, r, chain, now, anyRequest, i);
    }
  }

  // --- Reloading what was written --------------------------------------------------------------------

  /** `records` enumerates the sessions of `st` in some order, as the persisted file does. */
  ghost predicate Lists(records: seq<Record>, st: Store) {
    && (forall r | r in records :: r.id in st.sessions && st.sessions[r.id] == r)
    && (forall id | id in st.sessions :: st.sessions[id] in records)
  }

  lemma {:induction false} LoadedPartIsWithin(records: seq<Record>, st: Store)
    requires Indexed(st) && forall r | r in records :: r.id in st.sessions && st.sessions[r.id] == r
    ensures forall id | id in Load(records).sessions ::
              id in st.sessions && Load(records).sessions[id] == st.sessions[id]
    ensures forall h | h in Load(records).byHash :: h in st.byHash && Load(records).byHash[h] == st.byHash[h]
    ensures forall r | r in records :: r.id in Load(records).sessions && r.tokenHash in Load(records).byHash
  {
    if records != [] {
      var n := |records| - 1;
      LoadedPartIsWithin(records[..n], st);
      assert records == records[..n] + [records[n]];
    }
  }

  /** Loading a written store gives the store back, both indexes included. */
  lemma LoadInvertsPersist(records: seq<Record>, st: Store)
    requires Indexed(st) && Lists(records, st)
    ensures Load(records) == st
  {
    LoadedPartIsWithin(records, st);
    var loaded := Load(records);
    forall id | id in st.sessions ensures id in loaded.sessions {
      assert st.sessions[id] in records;
    }
    forall h | h in st.byHash ensures h in loaded.byHash {
      assert st.sessions[st.byHash[h]] in records;
    }
    assert loaded.sessions == st.sessions && loaded.byHash == st.byHash;
  }

  lemma LinkedIsCheckedUpToBudget(sessions: map<SessionId, Record>, r: Record)
    requires Linked(sessions, r)
    ensures CheckRecord(sessions, r).None? <==>
            r.parent.None? || BudgetWithin(Budget(sessions[r.parent.value]), Budget(r))
  {
    if r.parent.Some? && sessions[r.parent.value].constraints.Some? {
      NarrowFixpointIsContainment(sessions[r.parent.value].constraints.value, r.constraints.value);
    }
  }

  /** A store with the invariant is accepted back exactly when no child may outspend its parent. */
  lemma ReloadAcceptedIffBudgetsNested(records: seq<Record>, st: Store)
    requires Inv(st) && Lists(records, st)
    ensures Load(records) == st
    ensures Accepted(records) <==> BudgetsNested(st)
  {
    LoadInvertsPersist(records, st);
    forall id | id in st.sessions
      ensures CheckRecord(st.sessions, st.sessions[id]).None? <==>
              || st.sessions[id].parent.None?
              || BudgetWithin(Budget(st.sessions[st.sessions[id].parent.value]), Budget(st.sessions[id]))
    {
      assert Linked(st.sessions, st.sessions[id]);
      LinkedIsCheckedUpToBudget(st.sessions, st.sessions[id]);
    }
    if Accepted(records) {
      forall id | id in st.sessions && st.sessions[id].parent.Some? && st.sessions[id].parent.value in st.sessions
        ensures BudgetWithin(Budget(st.sessions[st.sessions[id].parent.value]), Budget(st.sessions[id]))
      {
        assert st.sessions[id] in records;
      }
    } else {
      var r :| r in records && CheckRecord(st.sessions, r).Some?;
      assert Linked(st.sessions, st.sessions[r.id]);
    }
  }

  /** Over every run from an empty store. */
  lemma RunReloadsIffBudgetsNested(ops: seq<Timed>, records: seq<Record>)
    requires FreshRun(EMPTY_STORE, ops) && Lists(records, StoreAfter(EMPTY_STORE, ops))
    ensures Load(records) == StoreAfter(EMPTY_STORE, ops)
    ensures Accepted(records) <==> BudgetsNested(StoreAfter(EMPTY_STORE, ops))
  {
    RunKeepsInv(EMPTY_STORE, ops);
    ReloadAcceptedIffBudgetsNested(records, StoreAfter(EMPTY_STORE, ops));
  }

  function BudgetOnly(n: nat): SessionConstraints {
    SessionConstraints(None, None, None, None, None, Some(n))
  }

  /** A root, a child with budget 5, a grandchild with budget 5; then the child spends one. */
  function OutspentRun(): seq<Timed> {
    [ Timed(0, OpCreate("agent", "env", None, "root", "h-root")),
      Timed(0, OpDelegate(ByToken("h-root"), BudgetOnly(5), "child", "h-child")),
      Timed(0, OpDelegate(ByToken("h-child"), BudgetOnly(5), "grandchild", "h-grandchild")),
      Timed(0, OpConsume("h-child")) ]
  }

  function OutspentStores(): seq<Store> {
    var root := Record("root", "agent", "env", "h-root", false, None, None, None);
    var child := Record("child", "agent", "env", "h-child", false, None, Some("root"), Some(BudgetOnly(5)));
    var grandchild := Record("grandchild", "agent", "env", "h-grandchild", false, None, Some("child"),
        Some(BudgetOnly(5)));
    var a := Insert(EMPTY_STORE, root);
    var b := Insert(a, child);
    var c := Insert(b, grandchild);
    [a, b, c, c.(sessions := c.sessions["child" := child.(constraints := Some(BudgetOnly(4)))])]
  }

  lemma OutspentSteps()
    ensures Fresh(EMPTY_STORE, OutspentRun()[0].op)
    ensures Apply(EMPTY_STORE, 0, OutspentRun()[0].op).store == OutspentStores()[0]
    ensures forall i | 0 < i < 4 ::
              && Fresh(OutspentStores()[i - 1], OutspentRun()[i].op)
              && Apply(OutspentStores()[i - 1], 0, OutspentRun()[i].op).store == OutspentStores()[i]
  {
    var run, stores := OutspentRun(), OutspentStores();
    assert Apply(stores[0], 0, run[1].op).store == stores[1];
    assert Apply(stores[1], 0, run[2].op).store == stores[2];
    ChainDrivesWalk(stores[2].sessions, Some("root"), ["root"], {}, 0);
    assert Apply(stores[2], 0, run[3].op).store == stores[3];
  }

  /** The run's file is refused on reload: spending alone can make a store the broker wrote unreadable to it. */
  lemma SpendingCanBreakReload(records: seq<Record>)
    requires Lists(records, StoreAfter(EMPTY_STORE, OutspentRun()))
    ensures FreshRun(EMPTY_STORE, OutspentRun())
    ensures !Accepted(records)
  {
    hide Apply, Fresh, Lists, Accepted;
    OutspentSteps();
    var run, stores := OutspentRun(), OutspentStores();
    assert run[1..][1..] == run[2..] && run[2..][1..] == run[3..] && run[3..][1..] == [];
    assert StoreAfter(EMPTY_STORE, run) == stores[3];
    assert FreshRun(stores[2], run[3..]);
    assert FreshRun(stores[1], run[2..]);
    assert FreshRun(stores[0], run[1..]);
    RunReloadsIffBudgetsNested(run, records);
    assert !BudgetWithin(Budget(stores[3].sessions["child"]), Budget(stores[3].sessions["grandchild"]));
    assert stores[3].sessions["grandchild"].parent == Some("child");
  }

  // --- What the checker accepts, and which record counts ---------------------------------------------

  /** No later record has the id of the record at `i`. */
  predicate LastOfItsId(records: seq<Record>, i: nat)
    requires i < |records|
  {
    forall j | i < j < |records| :: records[j].id != records[i].id
  }

  predicate LastOfItsToken(records: seq<Record>, i: nat)
    requires i < |records|
  {
    forall j | i < j < |records| :: records[j].tokenHash != records[i].tokenHash
  }

  /** Of several records with one id, or with one verifier, the last in the file counts. */
  lemma {:induction false} LaterRecordsWin(records: seq<Record>, i: nat)
    requires i < |records|
    ensures LastOfItsId(records, i) ==>
              records[i].id in Load(records).sessions && Load(records).sessions[records[i].id] == records[i]
    ensures LastOfItsToken(records, i) ==>
              && records[i].tokenHash in Load(records).byHash
              && Load(records).byHash[records[i].tokenHash] == records[i].id
    decreases |records|
  {
    var n := |records| - 1;
    if i < n {
      LaterRecordsWin(records[..n], i);
    }
  }

  /**
   * The checker accepts exactly the files in which every record is either a root without constraints, or has
   * constraints, a listed parent, and no more scope or budget than that parent on any dimension.
   */
  lemma AcceptedIff(records: seq<Record>)
    ensures Accepted(records) <==>
            forall r | r in records ::
              if r.parent.None? then r.constraints.None?
              else
                && r.constraints.Some? && r.parent.value in Load(records).sessions
                && var p := Load(records).sessions[r.parent.value].constraints;
                   p.Some? ==> ScopeWithin(p.value, r.constraints.value) && BudgetWithin(p.value.remaining, Budget(r))
  {
    var sessions := Load(records).sessions;
    forall r | r in records
      ensures CheckRecord(sessions, r).None? <==>
              if r.parent.None? then r.constraints.None?
              else
                && r.constraints.Some? && r.parent.value in sessions
                && var p := sessions[r.parent.value].constraints;
                   p.Some? ==> ScopeWithin(p.value, r.constraints.value) && BudgetWithin(p.value.remaining, Budget(r))
    {
      if r.parent.Some? && r.constraints.Some? && r.parent.value in sessions {
        var p := sessions[r.parent.value].constraints;
        if p.Some? {
          NarrowFixpointIsContainment(p.value, r.constraints.value);
        }
      }
    }
  }
}
