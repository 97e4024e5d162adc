/**
 * The request pipeline as a state machine: any number of runs advance one shared-state action at a time,
 * interleaved with session administration and the passing of time.
 */
module Pipeline {
  import opened Text
  import opened Constraints
  import opened Sessions
  import AuditLog
  import BoundedReason
  import Replay
  import Scrubber
  import SessionStores

  const PROTOCOL_VERSION := 1
  const MAX_RESPONSE_BODY_BYTES := 1024 * 1024

  datatype BrokerRequest = BrokerRequest(
    protocol: nat, hash: TokenHash, requestId: Option<string>, credential: string, verb: string)

  /** The denial reasons, in stage order; policy denials carry the authorizer's own text. */
  datatype Reason =
    | ProtocolUnsupported | SessionIsRevoked | InvalidToken | ReplayDetected
    | InvalidDestination | DestinationDenied | PolicyDenied(text: seq<BoundedReason.Scalar>) | OutsideDelegation
    | OutOfBudget | BudgetCheckFailed
    | CredentialUnavailable | TemplateUnsupported | InjectionFailed
    | TransportFailure | ResponseTooLarge

  datatype Response = Allowed(status: nat, body: string) | Denied(reason: Reason) | AuditWriteFailed

  /** Where a run stands between two actions on shared state. */
  datatype Phase =
    | Received
    | Authenticated
    | PastReplay
    | InScope
    | Paid
    | Prepared
    | Executed(status: nat)
    | Denying(reason: Reason)
    | Answering(response: Response)
    | Done(response: Response)

  /** `slot` is the position of the run's replay registration; `upstream` is the body that came back. */
  datatype Run = Run(
    request: BrokerRequest, phase: Phase, record: Option<Record>, target: Option<Request>, slot: Option<nat>,
    paid: bool, sends: nat, upstream: string, attempts: nat)

  /** What the parts outside the model answer. */
  datatype Input =
    | Nothing
    | StoreCall(works: bool)
    | Registration(cache: Replay.Cache, isNew: bool)
    | Screening(destination: Option<(string, string)>, egress: bool, policyDenial: Option<seq<BoundedReason.Scalar>>)
    | Resolution(failure: Option<Reason>)
    | Exchange(upstream: Option<(nat, string)>)
    | Append(id: string, body: AuditLog.NewEvent, disk: AuditLog.Disk)

  /** A whole record of the audit file and the run that wrote it, if one of these runs did. */
  datatype AuditEntry = AuditEntry(run: Option<nat>, event: AuditLog.Event)

  /** All calls to the replay cache so far, with its states and answers. */
  datatype ReplayHistory = ReplayHistory(calls: seq<Replay.Call>, states: seq<Replay.Cache>, answers: seq<bool>)

  /**
   * `store` is what the session file lists and `log` the audit file, whose whole records `audit` attributes to
   * runs. `minted` remembers each token's budget at creation; `transported` counts transport calls by token.
   */
  datatype World = World(
    codec: AuditLog.Codec, store: Store, minted: map<TokenHash, Option<nat>>, replay: ReplayHistory,
    now: nat, instant: nat, transported: multiset<TokenHash>, log: Option<string>, audit: seq<AuditEntry>,
    runs: map<nat, Run>)

  datatype Step =
    | Admin(op: Op, works: bool)
    | Tick(now: nat, instant: nat)
    | Arrive(id: nat, request: BrokerRequest)
    | Advance(id: nat, input: Input)

  function Events(audit: seq<AuditEntry>): seq<AuditLog.Event> {
    seq(|audit|, i requires 0 <= i < |audit| => audit[i].event)
  }

  /** A broker starts on whatever sessions and audit records its files hold, with an empty replay cache. */
  ghost predicate Init(w: World) {
    && Inv(w.store) && w.minted == (map h | h in w.store.byHash :: BudgetOf(w.store, h))
    && w.replay == ReplayHistory([], [Replay.Cache(map[], 0)], [])
    && w.transported == multiset{} && w.runs == map[]
    && LogOk(w) && forall e | e in w.audit :: e.run.None?
  }

  function Deny(run: Run, reason: Reason): Run {
    run.(phase := Denying(reason))
  }

  /** Stages 1 and 2: protocol gate and session authentication; any other failure of the store is no session. */
  function Authenticate(run: Run, store: Store, now: nat, works: bool): Run {
    if run.request.protocol != PROTOCOL_VERSION then Deny(run, ProtocolUnsupported)
    else
      match SessionStores.LockedValidate(store, run.request.hash, now, works)
      case Ok(record) => run.(phase := Authenticated, record := Some(record))
      case Err(SessionRevoked) => Deny(run, SessionIsRevoked)
      case Err(_) => Deny(run, InvalidToken)
  }

  /** What an authenticated run asks for at a canonical destination. */
  function TargetOf(run: Run, host: string, path: string): Request
    requires run.record.Some?
  {
    Request(run.request.credential, run.record.value.environment, host, run.request.verb, path)
  }

  /** Stages 3 to 5b: canonicalization, egress, policy, then the session's own constraints. */
  function Screen(run: Run, input: Input): Run
    requires input.Screening? && run.record.Some?
  {
    if input.destination.None? then Deny(run, InvalidDestination)
    else if !input.egress then Deny(run, DestinationDenied)
    else if input.policyDenial.Some? then Deny(run, PolicyDenied(input.policyDenial.value))
    else
      var (host, path) := input.destination.value;
      var q := TargetOf(run, host, path);
      if !Admits(run.record.value.constraints, q) then Deny(run, OutsideDelegation)
      else run.(phase := InScope, target := Some(q))
  }

  /** The budget step's effect on the run. */
  function Pay(run: Run, answer: Result<bool, BrokerError>): Run {
    match answer
    case Ok(_) => run.(phase := Paid, paid := true)
    case Err(BudgetExhausted) => Deny(run, OutOfBudget)
    case Err(SessionRevoked) => Deny(run, SessionIsRevoked)
    case Err(_) => Deny(run, BudgetCheckFailed)
  }

  /** Stages 8 and 9: the transport call and the size ceiling; the scrubber runs on what is answered. */
  function Transport(run: Run, input: Input): Run
    requires input.Exchange?
  {
    var sent := run.(sends := run.sends + 1);
    match input.upstream
    case None => Deny(sent, TransportFailure)
    case Some((status, body)) =>
      if |body| > MAX_RESPONSE_BODY_BYTES then Deny(sent, ResponseTooLarge)
      else sent.(phase := Executed(status), upstream := body)
  }

  function Ascii(s: string): seq<nat> {
    seq(|s|, i requires 0 <= i < |s| => s[i] as int)
  }

  /** A reason as the bytes the audit event carries before truncation. */
  function ReasonBytes(r: Reason): seq<nat> {
    match r
    case ProtocolUnsupported => Ascii("protocol_unsupported")
    case SessionIsRevoked => Ascii("session_revoked")
    case InvalidToken => Ascii("invalid_session")
    case ReplayDetected => Ascii("replay_detected")
    case InvalidDestination => Ascii("invalid_destination")
    case DestinationDenied => Ascii("destination_denied")
    case PolicyDenied(text) => BoundedReason.Utf8(text)
    case OutsideDelegation => Ascii("outside_delegation")
    case OutOfBudget => Ascii("budget_exhausted")
    case BudgetCheckFailed => Ascii("budget_check_failed")
    case CredentialUnavailable => Ascii("credential_unavailable")
    case TemplateUnsupported => Ascii("template_unsupported")
    case InjectionFailed => Ascii("injection_failed")
    case TransportFailure => Ascii("transport_failure")
    case ResponseTooLarge => Ascii("response_too_large")
  }

  /** The decision a run hands to the audit log. */
  function DecisionOf(phase: Phase): AuditLog.Decision {
    if phase.Denying? then AuditLog.Deny(BoundedReason.Truncated(ReasonBytes(phase.reason))) else AuditLog.Allow
  }

  predicate Appends(phase: Phase, input: Input) {
    input.Append? && (phase.Executed? || phase.Denying?)
  }

  /** The audit file after an append, and what the append answers. */
  function LogAfter(w: World, input: Input): (Option<string>, Result<AuditLog.Event, AuditLog.AuditError>)
    requires input.Append?
  {
    AuditLog.AppendWith(w.codec, w.log, input.id, input.body, input.disk)
  }

  /** The one audit append of a run, and the response it permits. */
  function Answer(run: Run, response: Response, stored: bool): Run {
    run.(phase := Answering(if stored then response else AuditWriteFailed), attempts := run.attempts + 1)
  }

  predicate ResolutionFailure(r: Reason) {
    r.CredentialUnavailable? || r.TemplateUnsupported? || r.InjectionFailed?
  }

  function Put(w: World, id: nat, run: Run): World {
    w.(runs := w.runs[id := run])
  }

  function LastCache(h: ReplayHistory): Replay.Cache
    requires h.states != []
  {
    h.states[|h.states| - 1]
  }

  function KeyOf(request: BrokerRequest): Replay.Key
    requires request.requestId.Some?
  {
    (request.hash, request.requestId.value)
  }

  function Extended(h: ReplayHistory, call: Replay.Call, cache: Replay.Cache, isNew: bool): ReplayHistory {
    ReplayHistory(h.calls + [call], h.states + [cache], h.answers + [isNew])
  }

  /** The answer a run's next action needs from outside; only caller-supplied request ids are replay-tracked. */
  ghost predicate Fits(w: World, run: Run, input: Input) {
    match run.phase
    case Received => input.StoreCall?
    case Authenticated =>
      if run.request.requestId.None? then input.Nothing?
      else
        && input.Registration?
        && w.replay.states != []
        && Replay.Registered(LastCache(w.replay), Replay.REPLAY_TTL, Replay.REPLAY_CACHE_MAX_ENTRIES, w.instant,
             KeyOf(run.request), input.cache, input.isNew)
    case PastReplay => input.Screening? && run.record.Some?
    case InScope => input.StoreCall?
    case Paid => input.Resolution? && (input.failure.Some? ==> ResolutionFailure(input.failure.value))
    case Prepared => input.Exchange?
    case Executed(_) => input.Append? && Reports(run, input.body)
    case Denying(_) => input.Append? && Reports(run, input.body)
    case Answering(_) => input.Nothing?
    case Done(_) => false
  }

  /** The event a run hands to the log; its other fields do not matter here. */
  predicate Reports(run: Run, body: AuditLog.NewEvent) {
    body.decision == DecisionOf(run.phase) && body.credential == Some(run.request.credential)
  }

  function RunAfter(w: World, run: Run, input: Input): Run {
    match (run.phase, input)
    case (Received, StoreCall(works)) => Authenticate(run, w.store, w.now, works)
    case (Authenticated, Nothing) => run.(phase := PastReplay)
    case (Authenticated, Registration(_, isNew)) =>
      if isNew then run.(phase := PastReplay, slot := Some(|w.replay.calls|)) else Deny(run, ReplayDetected)
    case (PastReplay, Screening(_, _, _)) => if run.record.Some? then Screen(run, input) else run
    case (InScope, StoreCall(works)) =>
      Pay(run, SessionStores.LockedConsume(w.store, run.request.hash, w.now, works).1)
    case (Paid, Resolution(failure)) => if failure.Some? then Deny(run, failure.value) else run.(phase := Prepared)
    case (Prepared, Exchange(_)) => Transport(run, input)
    case (Executed(status), Append(_, _, _)) =>
      Answer(run, Allowed(status, Scrubber.Scrub(run.upstream)), LogAfter(w, input).1.Ok?)
    case (Denying(reason), Append(_, _, _)) => Answer(run, Denied(reason), LogAfter(w, input).1.Ok?)
    case (Answering(response), Nothing) => run.(phase := Done(response))
    case _ => run
  }

  /** The whole records an append puts into the audit file, by the contents it had. */
  function Recorded(w: World, input: Input): seq<AuditLog.Event>
    requires input.Append?
  {
    var events := Events(w.audit);
    var intact := AuditLog.Intact(w.codec, w.log, events);
    AuditLog.Recorded(w.codec, events, intact, input.id, input.body, input.disk)
  }

  function AuditAfter(w: World, id: nat, phase: Phase, input: Input): seq<AuditEntry> {
    if Appends(phase, input) && Recorded(w, input) != [] then w.audit + [AuditEntry(Some(id), Recorded(w, input)[0])]
    else w.audit
  }

  /** One action of run `id`: the session store, the replay cache, the transport and the log each see their own. */
  function WorldAfter(w: World, id: nat, input: Input): World
    requires id in w.runs
  {
    var run := w.runs[id];
    World(
      w.codec,
      if run.phase.InScope? && input.StoreCall?
      then SessionStores.LockedConsume(w.store, run.request.hash, w.now, input.works).0 else w.store,
      w.minted,
      if run.phase.Authenticated? && run.request.requestId.Some? && input.Registration?
      then Extended(w.replay, Replay.Call(w.instant, KeyOf(run.request)), input.cache, input.isNew) else w.replay,
      w.now,
      w.instant,
      if run.phase.Prepared? then w.transported + multiset{run.request.hash} else w.transported,
      if Appends(run.phase, input) then LogAfter(w, input).0 else w.log,
      AuditAfter(w, id, run.phase, input),
      w.runs[id := RunAfter(w, run, input)])
  }

  ghost predicate AdvanceRun(w: World, id: nat, input: Input, w': World) {
    id in w.runs && Fits(w, w.runs[id], input) && w' == WorldAfter(w, id, input)
  }

  function Minting(w: World, op: Op, after: Store): map<TokenHash, Option<nat>> {
    if (op.OpCreate? || op.OpDelegate?) && op.hash !in w.store.byHash && op.hash in after.byHash
    then w.minted[op.hash := BudgetOf(after, op.hash)] else w.minted
  }

  ghost predicate Next(w: World, step: Step, w': World) {
    match step
    case Admin(op, works) =>
      var after := SessionStores.LockedApply(w.store, w.now, op, works).store;
      !op.OpConsume? && Fresh(w.store, op) && w' == w.(store := after, minted := Minting(w, op, after))
    case Tick(now, instant) => w.now <= now && w.instant <= instant && w' == w.(now := now, instant := instant)
    case Arrive(id, request) =>
      id !in w.runs && w' == Put(w, id, Run(request, Received, None, None, None, false, 0, "", 0))
    case Advance(id, input) => AdvanceRun(w, id, input, w')
  }

  ghost predicate Behaviour(worlds: seq<World>, steps: seq<Step>) {
    && |worlds| == |steps| + 1
    && Init(worlds[0])
    && forall i | 0 <= i < |steps| :: Next(worlds[i], steps[i], worlds[i + 1])
  }

  // --- Invariants ------------------------------------------------------------------------------------------

  predicate BeforePayment(p: Phase) {
    p.Received? || p.Authenticated? || p.PastReplay? || p.InScope?
  }

  predicate Answered(p: Phase) {
    p.Answering? || p.Done?
  }

  /** Denials after the budget step. */
  predicate PastBudget(r: Reason) {
    ResolutionFailure(r) || PastTransport(r)
  }

  /** Denials after the transport call. */
  predicate PastTransport(r: Reason) {
    r.TransportFailure? || r.ResponseTooLarge?
  }

  /** What a run denied with `r` has done. */
  predicate DeniedAfter(run: Run, r: Reason) {
    (run.paid <==> PastBudget(r)) && run.sends == (if PastTransport(r) then 1 else 0)
  }

  /** What a run's own bookkeeping says at each phase. */
  predicate RunShape(run: Run) {
    && run.sends <= 1
    && (run.sends == 1 ==> run.paid)
    && (BeforePayment(run.phase) ==> !run.paid && run.sends == 0)
    && (run.phase.Paid? || run.phase.Prepared? ==> run.paid && run.sends == 0)
    && (run.phase.Executed? ==> run.sends == 1 && |run.upstream| <= MAX_RESPONSE_BODY_BYTES)
    && (!run.phase.Received? && !run.phase.Denying? && !Answered(run.phase) ==>
          run.record.Some? && run.request.protocol == PROTOCOL_VERSION)
    && (run.paid || run.phase.InScope? ==>
          run.record.Some? && run.target.Some? && run.request.protocol == PROTOCOL_VERSION)
    && (run.phase.Received? ==> run.record.None? && run.target.None?)
    && (run.phase.Authenticated? || run.phase.PastReplay? ==> run.target.None?)
    && (run.phase.Denying? ==> DeniedAfter(run, run.phase.reason))
    && (Answered(run.phase) && run.phase.response.Denied? ==> DeniedAfter(run, run.phase.response.reason))
    && run.attempts == (if Answered(run.phase) then 1 else 0)
    && (Answered(run.phase) && run.phase.response.Allowed? ==>
          && run.sends == 1
          && |run.upstream| <= MAX_RESPONSE_BODY_BYTES
          && run.phase.response.body == Scrubber.Scrub(run.upstream))
  }

  /** The record a run works with is still the stored one, and admits the run's target. */
  predicate RunBound(store: Store, run: Run) {
    && (run.record.Some? ==>
          && run.request.hash in store.byHash
          && store.byHash[run.request.hash] == run.record.value.id
          && run.record.value.id in store.sessions
          && SameScope(store.sessions[run.record.value.id], run.record.value))
    && (run.target.Some? ==> run.record.Some? && Admits(run.record.value.constraints, run.target.value))
  }

  /** The records a run wrote. */
  function RunEvents(audit: seq<AuditEntry>, id: nat): seq<AuditLog.Event> {
    if audit == [] then []
    else
      var last := audit[|audit| - 1];
      RunEvents(audit[..|audit| - 1], id) + if last.run == Some(id) then [last.event] else []
  }

  /** Only answered runs have records, at most one each, and a run answered Allow or Deny has that one. */
  predicate RunAudited(audit: seq<AuditEntry>, id: nat, run: Run) {
    var mine := RunEvents(audit, id);
    if !Answered(run.phase) then mine == []
    else
      match run.phase.response
      case Allowed(_, _) => |mine| == 1 && mine[0].body.decision == AuditLog.Allow
      case Denied(reason) => |mine| == 1 && mine[0].body.decision == DecisionOf(Denying(reason))
      case AuditWriteFailed => |mine| <= 1
  }

  /** The audit file holds the records attributed, and after them nothing or a torn one. */
  ghost predicate LogOk(w: World) {
    AuditLog.Lawful(w.codec) && AuditLog.Holds(w.codec, w.log, Events(w.audit))
  }

  predicate RunsOk(w: World) {
    forall id | id in w.runs ::
      RunShape(w.runs[id]) && RunBound(w.store, w.runs[id]) && RunAudited(w.audit, id, w.runs[id])
  }

  ghost predicate AuditKnown(w: World) {
    forall e | e in w.audit && e.run.Some? :: e.run.value in w.runs
  }

  function PaidRuns(runs: map<nat, Run>, h: TokenHash): set<nat> {
    set id | id in runs && runs[id].request.hash == h && runs[id].paid
  }

  function SentRuns(runs: map<nat, Run>, h: TokenHash): set<nat> {
    set id | id in runs && runs[id].request.hash == h && runs[id].sends > 0
  }

  /** What was minted for `h` is what remains plus what was paid, and every transport call is one run's. */
  predicate BalancedFor(w: World, h: TokenHash) {
    && (h in w.store.byHash <==> h in w.minted)
    && w.transported[h] == |SentRuns(w.runs, h)|
    && (h !in w.minted ==> PaidRuns(w.runs, h) == {})
    && (h in w.minted ==> w.minted[h].Some? == BudgetOf(w.store, h).Some?)
    && (h in w.minted && w.minted[h].Some? ==> w.minted[h].value == BudgetOf(w.store, h).value + |PaidRuns(w.runs, h)|)
  }

  ghost predicate Balanced(w: World) {
    forall h :: BalancedFor(w, h)
  }

  /** The replay history is a run of the cache under a nondecreasing clock. */
  ghost predicate HistoryOk(h: ReplayHistory, instant: nat) {
    && Replay.CacheRun(h.calls, Replay.REPLAY_TTL, Replay.REPLAY_CACHE_MAX_ENTRIES, h.states, h.answers)
    && Replay.ClockNondecreasing(h.calls)
    && (forall i | 0 <= i < |h.calls| :: h.calls[i].now <= instant)
  }

  /** Each registered run owns its position in the history. */
  predicate SlotsOk(h: ReplayHistory, runs: map<nat, Run>) {
    && (forall id | id in runs :: SlotOk(h, runs[id]))
    && (forall a, b | a in runs && b in runs && runs[a].slot.Some? && runs[a].slot == runs[b].slot :: a == b)
  }

  predicate SlotOk(h: ReplayHistory, run: Run) {
    && (run.slot.Some? ==>
          && run.request.requestId.Some?
          && run.slot.value < |h.calls| && run.slot.value < |h.answers|
          && h.answers[run.slot.value] && h.calls[run.slot.value].key == KeyOf(run.request))
    && (run.request.requestId.Some? && (run.paid || run.phase.PastReplay? || run.phase.InScope?) ==> run.slot.Some?)
    && (run.phase.Received? || run.phase.Authenticated? ==> run.slot.None?)
  }

  ghost predicate WorldInv(w: World) {
    && Inv(w.store) && RunsOk(w) && AuditKnown(w) && LogOk(w) && Balanced(w)
    && HistoryOk(w.replay, w.instant) && SlotsOk(w.replay, w.runs)
  }

  // --- Every step keeps the invariant ---------------------------------------------------------------------------

  /** Stored records keep their identity and scope, and verifiers keep naming them. */
  predicate ScopesKept(before: Store, after: Store) {
    && (forall h | h in before.byHash :: h in after.byHash && after.byHash[h] == before.byHash[h])
    && (forall id | id in before.sessions :: id in after.sessions && SameScope(after.sessions[id], before.sessions[id]))
  }

  lemma ApplyKeepsAllScopes(st: Store, now: nat, op: Op)
    requires Inv(st) && Fresh(st, op)
    ensures ScopesKept(st, Apply(st, now, op).store)
  {
    ApplyExtends(st, now, op);
    forall id | id in st.sessions
      ensures id in Apply(st, now, op).store.sessions
              && SameScope(Apply(st, now, op).store.sessions[id], st.sessions[id])
    {
      ApplyKeepsScopes(st, now, op, id);
    }
  }

  lemma BoundIsKept(before: Store, after: Store, run: Run)
    requires ScopesKept(before, after) && RunBound(before, run)
    ensures RunBound(after, run)
  {
  }

  // The effect of one action, part by part, so that each proof below sees only the part it needs

  /** Only the run that advances changes, and each shared part changes only in its own phase. */
  ghost predicate Framed(w: World, id: nat, w': World) {
    && id in w.runs && id in w'.runs
    && w'.runs == w.runs[id := w'.runs[id]]
    && w'.runs[id].request == w.runs[id].request
    && w'.minted == w.minted && w'.now == w.now && w'.instant == w.instant && w'.codec == w.codec
    && (!w.runs[id].phase.InScope? ==> w'.store == w.store && w'.runs[id].paid == w.runs[id].paid)
    && (!w.runs[id].phase.Prepared? ==> w'.transported == w.transported && w'.runs[id].sends == w.runs[id].sends)
    && (!w.runs[id].phase.Authenticated? ==> w'.replay == w.replay && w'.runs[id].slot == w.runs[id].slot)
  }

  /** What an action does to the audit file. */
  predicate AuditEffect(w: World, id: nat, input: Input, w': World)
    requires id in w.runs
  {
    var phase := w.runs[id].phase;
    && w'.audit == AuditAfter(w, id, phase, input)
    && w'.log == if Appends(phase, input) then LogAfter(w, input).0 else w.log
  }

  /** How a run comes by its record and its target. */
  predicate RecordEffect(w: World, run: Run, input: Input, run': Run) {
    match run.phase
    case Received => input.StoreCall? && run' == Authenticate(run, w.store, w.now, input.works)
    case PastReplay => input.Screening? && run.record.Some? && run' == Screen(run, input)
    case _ => run'.record == run.record && run'.target == run.target
  }

  /** The budget step is the store's spending operation, and the run has paid exactly if it answers so. */
  predicate PayEffect(w: World, run: Run, input: Input, w': World, run': Run) {
    run.phase.InScope? ==>
      && input.StoreCall?
      && w'.store == SessionStores.LockedConsume(w.store, run.request.hash, w.now, input.works).0
      && (!run.paid ==>
            run'.paid == SessionStores.LockedConsume(w.store, run.request.hash, w.now, input.works).1.Ok?)
  }

  predicate SendEffect(w: World, run: Run, w': World, run': Run) {
    run.phase.Prepared? ==> w'.transported == w.transported + multiset{run.request.hash} && run'.sends == run.sends + 1
  }

  lemma AdvanceIsFramed(w: World, id: nat, input: Input, w': World)
    requires AdvanceRun(w, id, input, w')
    ensures Framed(w, id, w')
    ensures w'.runs[id] == RunAfter(w, w.runs[id], input) && AuditEffect(w, id, input, w')
  {
    hide SessionStores.LockedValidate, SessionStores.LockedConsume, AuditLog.AppendWith, Replay.Registered,
         Scrubber.Scrub, Constraints.CheckRequest, ReasonBytes;
  }

  lemma AdvanceEffects(w: World, id: nat, input: Input, w': World)
    requires AdvanceRun(w, id, input, w')
    ensures Framed(w, id, w')
    ensures RecordEffect(w, w.runs[id], input, w'.runs[id])
    ensures PayEffect(w, w.runs[id], input, w', w'.runs[id])
    ensures SendEffect(w, w.runs[id], w', w'.runs[id])
  {
    hide SessionStores.LockedValidate, SessionStores.LockedConsume, AuditLog.AppendWith, Replay.Registered,
         Scrubber.Scrub, Constraints.CheckRequest, ReasonBytes;
    AdvanceIsFramed(w, id, input, w');
  }

  lemma AdvanceKeepsShape(w: World, run: Run, input: Input)
    requires Fits(w, run, input) && RunShape(run)
    ensures RunShape(RunAfter(w, run, input))
  {
    hide SessionStores.LockedValidate, SessionStores.LockedConsume, AuditLog.AppendWith, Replay.Registered,
         Scrubber.Scrub, Constraints.CheckRequest, ReasonBytes;
  }

  lemma AuthenticateBinds(store: Store, run: Run, now: nat, works: bool)
    requires Indexed(store) && run.record.None? && run.target.None?
    ensures RunBound(store, Authenticate(run, store, now, works))
  {
  }

  lemma ScreenBinds(store: Store, run: Run, input: Input)
    requires input.Screening? && run.record.Some? && run.target.None? && RunBound(store, run)
    ensures RunBound(store, Screen(run, input))
  {
  }

  lemma AdvanceKeepsBound(w: World, id: nat, input: Input, w': World)
    requires Framed(w, id, w') && RecordEffect(w, w.runs[id], input, w'.runs[id])
             && PayEffect(w, w.runs[id], input, w', w'.runs[id])
    requires Inv(w.store) && RunShape(w.runs[id]) && RunBound(w.store, w.runs[id])
    ensures ScopesKept(w.store, w'.store) && Inv(w'.store)
    ensures RunBound(w'.store, w'.runs[id])
  {
    var run := w.runs[id];
    match run.phase
    case Received => AuthenticateBinds(w.store, run, w.now, input.works);
    case PastReplay => ScreenBinds(w.store, run, input);
    case InScope =>
      ApplyKeepsAllScopes(w.store, w.now, OpConsume(run.request.hash));
      ApplyKeepsInv(w.store, w.now, OpConsume(run.request.hash));
      BoundIsKept(w.store, w'.store, run);
    case _ =>
  }

  /** Where a phase can be reached from. */
  predicate PhaseOrder(run: Run, run': Run) {
    && !run'.phase.Received?
    && (run'.phase.Authenticated? ==> run.phase.Received?)
    && (run'.phase.PastReplay? ==> run.phase.Authenticated?)
    && (run'.phase.InScope? ==> run.phase.PastReplay?)
    && (Answered(run'.phase) ==> run.phase.Executed? || run.phase.Denying? || run.phase.Answering?)
  }

  lemma AdvanceFollowsOrder(w: World, run: Run, input: Input)
    requires Fits(w, run, input)
    ensures PhaseOrder(run, RunAfter(w, run, input))
  {
    hide SessionStores.LockedValidate, SessionStores.LockedConsume, AuditLog.AppendWith, Replay.Registered,
         Scrubber.Scrub, Constraints.CheckRequest, ReasonBytes;
  }

  // The audit file

  lemma EventsSnoc(audit: seq<AuditEntry>, e: AuditEntry, id: nat)
    ensures Events(audit + [e]) == Events(audit) + [e.event]
    ensures RunEvents(audit + [e], id) == RunEvents(audit, id) + if e.run == Some(id) then [e.event] else []
  {
    assert (audit + [e])[..|audit|] == audit;
  }

  lemma {:induction false} NoEntriesNoEvents(audit: seq<AuditEntry>, id: nat)
    requires forall e | e in audit :: e.run != Some(id)
    ensures RunEvents(audit, id) == []
  {
    if audit != [] {
      NoEntriesNoEvents(audit[..|audit| - 1], id);
    }
  }

  lemma DecisionIsValid(phase: Phase)
    ensures AuditLog.ValidDecision(DecisionOf(phase))
  {
    hide ReasonBytes;
  }

  /** What an append by a run does: the answer, the record, and the file, by the disk and by whether it was torn. */
  lemma AppendEffect(w: World, id: nat, run: Run, input: Input)
    requires LogOk(w) && Appends(run.phase, input) && Reports(run, input.body)
    ensures var intact := AuditLog.Intact(w.codec, w.log, Events(w.audit));
            var recorded := Recorded(w, input);
            && AuditLog.Holds(w.codec, LogAfter(w, input).0, Events(AuditAfter(w, id, run.phase, input)))
            && (recorded != [] <==> intact && (input.disk.Synced? || input.disk.Unsynced?))
            && (recorded != [] ==>
                  && recorded == [AuditLog.Link(w.codec, Events(w.audit), input.id, input.body)]
                  && recorded[0].body == input.body
                  && Events(AuditAfter(w, id, run.phase, input)) == Events(w.audit) + recorded
                  && AuditLog.Intact(w.codec, LogAfter(w, input).0, Events(w.audit) + recorded))
            && (LogAfter(w, input).1.Ok? <==> intact && input.disk.Synced?)
            && (!intact ==> LogAfter(w, input).0 == w.log)
            && (intact ==>
                  (AuditLog.Intact(w.codec, LogAfter(w, input).0, Events(AuditAfter(w, id, run.phase, input))) <==>
                   !(input.disk.Cut? && input.disk.bytes > 0)))
            && forall other ::
                 RunEvents(AuditAfter(w, id, run.phase, input), other) ==
                 RunEvents(w.audit, other) + if other == id then recorded else []
  {
    DecisionIsValid(run.phase);
    hide AuditLog.AppendWith, AuditLog.Holds, AuditLog.Intact, DecisionOf, AuditLog.ValidDecision;
    AuditLog.AppendOnAnyDisk(w.codec, w.log, Events(w.audit), input.id, input.body, input.disk);
    forall other
      ensures RunEvents(AuditAfter(w, id, run.phase, input), other) ==
              RunEvents(w.audit, other) + if other == id then Recorded(w, input) else []
    {
      if Recorded(w, input) != [] {
        EventsSnoc(w.audit, AuditEntry(Some(id), Recorded(w, input)[0]), other);
      }
    }
    if Recorded(w, input) != [] {
      EventsSnoc(w.audit, AuditEntry(Some(id), Recorded(w, input)[0]), id);
    } else {
      assert Events(w.audit) + [] == Events(w.audit);
    }
  }

  lemma AdvanceKeepsLog(w: World, id: nat, input: Input, w': World)
    requires AdvanceRun(w, id, input, w') && LogOk(w) && AuditKnown(w)
    ensures LogOk(w') && AuditKnown(w')
  {
    AdvanceIsFramed(w, id, input, w');
    hide AdvanceRun, RunAfter, AuditLog.Holds, AuditLog.Lawful;
    if Appends(w.runs[id].phase, input) {
      assert Reports(w.runs[id], input.body);
      AppendEffect(w, id, w.runs[id], input);
    }
  }

  /** What a run answers after its append. */
  lemma AppendedRun(w: World, run: Run, input: Input)
    requires Appends(run.phase, input)
    ensures RunAfter(w, run, input).phase.Answering?
    ensures var response := RunAfter(w, run, input).phase.response;
            if LogAfter(w, input).1.Err? then response == AuditWriteFailed
            else if run.phase.Executed? then response == Allowed(run.phase.status, Scrubber.Scrub(run.upstream))
            else response == Denied(run.phase.reason)
  {
    hide AuditLog.AppendWith, Scrubber.Scrub;
  }

  lemma AdvanceKeepsAudited(w: World, id: nat, run: Run, input: Input)
    requires LogOk(w) && Fits(w, run, input) && RunAudited(w.audit, id, run)
    ensures RunAudited(AuditAfter(w, id, run.phase, input), id, RunAfter(w, run, input))
    ensures forall other | other != id ::
              RunEvents(AuditAfter(w, id, run.phase, input), other) == RunEvents(w.audit, other)
  {
    hide SessionStores.LockedValidate, SessionStores.LockedConsume, Replay.Registered, RunEvents,
         Scrubber.Scrub, Constraints.CheckRequest, ReasonBytes, LogOk, Recorded, LogAfter, BoundedReason.Truncated;
    if Appends(run.phase, input) {
      AppendedRun(w, run, input);
      hide RunAfter;
      AppendEffect(w, id, run, input);
    } else {
      AdvanceFollowsOrder(w, run, input);
    }
  }

  lemma RunsOkAfter(w: World, id: nat, w': World)
    requires RunsOk(w) && Framed(w, id, w') && ScopesKept(w.store, w'.store)
    requires RunShape(w'.runs[id]) && RunBound(w'.store, w'.runs[id]) && RunAudited(w'.audit, id, w'.runs[id])
    requires forall other | other != id :: RunEvents(w'.audit, other) == RunEvents(w.audit, other)
    ensures RunsOk(w')
  {
    forall other | other in w'.runs
      ensures RunShape(w'.runs[other]) && RunBound(w'.store, w'.runs[other])
              && RunAudited(w'.audit, other, w'.runs[other])
    {
      if other != id {
        BoundIsKept(w.store, w'.store, w.runs[other]);
      }
    }
  }

  lemma AdvanceKeepsRunsOk(w: World, id: nat, input: Input, w': World)
    requires AdvanceRun(w, id, input, w') && Inv(w.store) && RunsOk(w) && LogOk(w)
    ensures Inv(w'.store) && RunsOk(w')
  {
    AdvanceEffects(w, id, input, w');
    AdvanceIsFramed(w, id, input, w');
    AdvanceKeepsShape(w, w.runs[id], input);
    AdvanceKeepsBound(w, id, input, w');
    AdvanceKeepsAudited(w, id, w.runs[id], input);
    RunsOkAfter(w, id, w');
  }

  // Budgets

  lemma RunSetsAfter(runs: map<nat, Run>, id: nat, run': Run, h: TokenHash)
    requires id in runs && run'.request == runs[id].request
    requires runs[id].paid ==> run'.paid
    requires runs[id].sends <= run'.sends
    ensures var mine := runs[id].request.hash == h;
            && PaidRuns(runs[id := run'], h) == PaidRuns(runs, h) + (if mine && run'.paid then {id} else {})
            && SentRuns(runs[id := run'], h) == SentRuns(runs, h) + (if mine && run'.sends > 0 then {id} else {})
            && (mine && !runs[id].paid ==> id !in PaidRuns(runs, h))
            && (mine && runs[id].sends == 0 ==> id !in SentRuns(runs, h))
            && (mine && runs[id].paid ==> id in PaidRuns(runs, h))
            && (mine && runs[id].sends > 0 ==> id in SentRuns(runs, h))
  {
  }

  /** Paying takes one from the payer's budget, if it has one, and leaves every other budget alone. */
  lemma ConsumeEffect(st: Store, now: nat, payer: TokenHash, works: bool, h: TokenHash)
    requires Inv(st)
    ensures var (st', answer) := SessionStores.LockedConsume(st, payer, now, works);
            && st'.byHash == st.byHash
            && (answer.Ok? ==> payer in st.byHash)
            && (h in st.byHash && h == payer && answer.Ok? && BudgetOf(st, h).Some? ==>
                  BudgetOf(st, h).value > 0 && BudgetOf(st', h) == Some(BudgetOf(st, h).value - 1))
            && (h in st.byHash && (h != payer || answer.Err? || BudgetOf(st, h).None?) ==>
                BudgetOf(st', h) == BudgetOf(st, h))
  {
    if h in st.byHash {
      BudgetsChangeOnlyBySpending(st, now, OpConsume(payer), h);
    }
  }

  lemma QuietKeepsBalancedFor(w: World, id: nat, w': World, h: TokenHash)
    requires Framed(w, id, w') && !w.runs[id].phase.InScope? && !w.runs[id].phase.Prepared? && BalancedFor(w, h)
    ensures BalancedFor(w', h)
  {
    hide BalancedFor;
    RunSetsAfter(w.runs, id, w'.runs[id], h);
    assert PaidRuns(w'.runs, h) == PaidRuns(w.runs, h) && SentRuns(w'.runs, h) == SentRuns(w.runs, h);
    CountKeepsBalancedFor(w, id, w', h, false);
  }

  /** Budgets and payments move together; `charged` says whether `h` paid. */
  lemma ChargeKeepsBalancedFor(w: World, id: nat, w': World, h: TokenHash, charged: bool)
    requires BalancedFor(w, h) && (charged ==> id !in PaidRuns(w.runs, h))
    requires w'.store.byHash == w.store.byHash && w'.minted == w.minted && w'.transported == w.transported
    requires SentRuns(w'.runs, h) == SentRuns(w.runs, h)
    requires PaidRuns(w'.runs, h) == PaidRuns(w.runs, h) + (if charged then {id} else {})
    requires charged ==> h in w.store.byHash
    requires charged && BudgetOf(w.store, h).Some? ==>
               BudgetOf(w.store, h).value > 0 && BudgetOf(w'.store, h) == Some(BudgetOf(w.store, h).value - 1)
    requires h in w.store.byHash && (!charged || BudgetOf(w.store, h).None?) ==>
             BudgetOf(w'.store, h) == BudgetOf(w.store, h)
    ensures BalancedFor(w', h)
  {
  }

  lemma PaySets(w: World, id: nat, w': World, h: TokenHash)
    requires Framed(w, id, w') && w.runs[id].phase.InScope? && !w.runs[id].paid
    ensures SentRuns(w'.runs, h) == SentRuns(w.runs, h)
    ensures w.runs[id].request.hash == h ==> id !in PaidRuns(w.runs, h)
    ensures PaidRuns(w'.runs, h) ==
            PaidRuns(w.runs, h) + (if w.runs[id].request.hash == h && w'.runs[id].paid then {id} else {})
  {
    RunSetsAfter(w.runs, id, w'.runs[id], h);
  }

  lemma PayKeepsBalancedFor(w: World, id: nat, input: Input, w': World, h: TokenHash)
    requires Framed(w, id, w') && w.runs[id].phase.InScope? && !w.runs[id].paid
    requires PayEffect(w, w.runs[id], input, w', w'.runs[id])
    requires Inv(w.store) && BalancedFor(w, h)
    ensures BalancedFor(w', h)
  {
    var payer := w.runs[id].request.hash;
    PaySets(w, id, w', h);
    ConsumeEffect(w.store, w.now, payer, input.works, h);
    ChargeKeepsBalancedFor(w, id, w', h, h == payer && w'.runs[id].paid);
  }

  lemma CountAfterAdding(m: multiset<TokenHash>, x: TokenHash, h: TokenHash)
    ensures (m + multiset{x})[h] == m[h] + if h == x then 1 else 0
  {
  }

  /** A transport call and the run that makes it are counted together. */
  lemma CountKeepsBalancedFor(w: World, id: nat, w': World, h: TokenHash, sent: bool)
    requires BalancedFor(w, h) && (sent ==> id !in SentRuns(w.runs, h))
    requires w'.store == w.store && w'.minted == w.minted
    requires w'.transported[h] == w.transported[h] + if sent then 1 else 0
    requires SentRuns(w'.runs, h) == SentRuns(w.runs, h) + (if sent then {id} else {})
    requires PaidRuns(w'.runs, h) == PaidRuns(w.runs, h)
    ensures BalancedFor(w', h)
  {
    hide Sessions.BudgetOf, PaidRuns, SentRuns;
  }

  lemma SendKeepsBalancedFor(w: World, id: nat, w': World, h: TokenHash)
    requires Framed(w, id, w') && SendEffect(w, w.runs[id], w', w'.runs[id]) && w.runs[id].phase.Prepared?
    requires w.runs[id].sends == 0 && BalancedFor(w, h)
    ensures BalancedFor(w', h)
  {
    hide BalancedFor;
    RunSetsAfter(w.runs, id, w'.runs[id], h);
    assert PaidRuns(w'.runs, h) == PaidRuns(w.runs, h);
    CountAfterAdding(w.transported, w.runs[id].request.hash, h);
    CountKeepsBalancedFor(w, id, w', h, h == w.runs[id].request.hash);
  }

  lemma AdvanceKeepsBalanced(w: World, id: nat, input: Input, w': World)
    requires AdvanceRun(w, id, input, w') && Inv(w.store) && RunsOk(w) && Balanced(w)
    ensures Balanced(w')
  {
    AdvanceEffects(w, id, input, w');
    forall h ensures BalancedFor(w', h) {
      assert BalancedFor(w, h) && RunShape(w.runs[id]);
      match w.runs[id].phase
      case InScope => PayKeepsBalancedFor(w, id, input, w', h);
      case Prepared => SendKeepsBalancedFor(w, id, w', h);
      case _ => QuietKeepsBalancedFor(w, id, w', h);
    }
  }

  // Replay

  lemma HistoryGrows(h: ReplayHistory, instant: nat, key: Replay.Key, cache: Replay.Cache, isNew: bool)
    requires HistoryOk(h, instant)
    requires Replay.Registered(
               LastCache(h), Replay.REPLAY_TTL, Replay.REPLAY_CACHE_MAX_ENTRIES, instant, key, cache, isNew)
    ensures HistoryOk(Extended(h, Replay.Call(instant, key), cache, isNew), instant)
  {
    var h' := Extended(h, Replay.Call(instant, key), cache, isNew);
    forall i | 0 <= i < |h'.calls|
      ensures Replay.Registered(h'.states[i], Replay.REPLAY_TTL, Replay.REPLAY_CACHE_MAX_ENTRIES,
                h'.calls[i].now, h'.calls[i].key, h'.states[i + 1], h'.answers[i])
    {
      if i == |h.calls| {
        assert h'.states[i] == LastCache(h) && h'.states[i + 1] == cache;
      } else {
        assert h'.states[i] == h.states[i] && h'.states[i + 1] == h.states[i + 1];
      }
    }
  }

  lemma SlotsAfter(h: ReplayHistory, h': ReplayHistory, runs: map<nat, Run>, id: nat, run': Run)
    requires SlotsOk(h, runs) && id in runs && SlotOk(h', run')
    requires h.calls <= h'.calls && h.answers <= h'.answers && |h.calls| == |h.answers|
    requires run'.slot == runs[id].slot || run'.slot == None || run'.slot == Some(|h.calls|)
    ensures SlotsOk(h', runs[id := run'])
  {
    forall other | other in runs ensures SlotOk(h', if other == id then run' else runs[other]) {
      assert SlotOk(h, runs[other]);
    }
  }

  lemma AdvanceKeepsReplay(w: World, id: nat, input: Input, w': World)
    requires AdvanceRun(w, id, input, w') && RunShape(w.runs[id])
    requires HistoryOk(w.replay, w.instant) && SlotOk(w.replay, w.runs[id])
    ensures id in w'.runs && HistoryOk(w'.replay, w'.instant) && SlotOk(w'.replay, w'.runs[id])
    ensures w.replay.calls <= w'.replay.calls && w.replay.answers <= w'.replay.answers
    ensures var s := w'.runs[id].slot; s == w.runs[id].slot || s == None || s == Some(|w.replay.calls|)
  {
    hide SessionStores.LockedValidate, SessionStores.LockedConsume, AuditLog.AppendWith, Replay.Registered,
         Replay.ClockNondecreasing, Scrubber.Scrub, Constraints.CheckRequest, ReasonBytes;
    var run := w.runs[id];
    if run.phase.Authenticated? {
      if run.request.requestId.Some? {
        HistoryGrows(w.replay, w.instant, KeyOf(run.request), input.cache, input.isNew);
      }
    } else {
      AdvanceIsFramed(w, id, input, w');
      AdvanceFollowsOrder(w, run, input);
      OrderKeepsSlot(w.replay, run, w'.runs[id]);
    }
  }

  lemma OrderKeepsSlot(h: ReplayHistory, run: Run, run': Run)
    requires SlotOk(h, run) && PhaseOrder(run, run') && !run.phase.Authenticated?
    requires run'.slot == run.slot && run'.request == run.request && (run'.paid ==> run.paid || run.phase.InScope?)
    ensures SlotOk(h, run')
  {
  }

  lemma AdvanceKeepsSlots(w: World, id: nat, input: Input, w': World)
    requires AdvanceRun(w, id, input, w') && RunsOk(w) && HistoryOk(w.replay, w.instant) && SlotsOk(w.replay, w.runs)
    ensures HistoryOk(w'.replay, w'.instant) && SlotsOk(w'.replay, w'.runs)
  {
    AdvanceEffects(w, id, input, w');
    AdvanceKeepsReplay(w, id, input, w');
    SlotsAfter(w.replay, w'.replay, w.runs, id, w'.runs[id]);
  }

  // Whole steps

  lemma MintingEffect(w: World, op: Op, works: bool, h: TokenHash)
    requires Inv(w.store) && Fresh(w.store, op) && !op.OpConsume? && (h in w.store.byHash <==> h in w.minted)
    ensures var after := SessionStores.LockedApply(w.store, w.now, op, works).store;
            var minted := Minting(w, op, after);
            && (h in after.byHash <==> h in minted)
            && (h in w.store.byHash ==> BudgetOf(after, h) == BudgetOf(w.store, h) && minted[h] == w.minted[h])
            && (h !in w.store.byHash && h in minted ==> minted[h] == BudgetOf(after, h))
  {
    hide Sessions.Linked, Sessions.Budget, Constraints.ValidPaths, Constraints.Narrow;
    if h in w.store.byHash {
      BudgetsChangeOnlyBySpending(w.store, w.now, op, h);
    }
  }

  lemma AdminKeepsRuns(w: World, store: Store)
    requires RunsOk(w) && ScopesKept(w.store, store)
    ensures RunsOk(w.(store := store))
  {
    hide RunShape, RunBound, RunAudited, ScopesKept;
    forall id | id in w.runs ensures RunBound(store, w.runs[id]) {
      BoundIsKept(w.store, store, w.runs[id]);
    }
  }

  lemma AdminKeepsBalanced(w: World, op: Op, works: bool, w': World)
    requires Inv(w.store) && Balanced(w) && Next(w, Admin(op, works), w')
    ensures Balanced(w')
  {
    hide Apply, Sessions.Inv, BudgetsNested;
    forall h ensures BalancedFor(w', h) {
      assert BalancedFor(w, h);
      MintingEffect(w, op, works, h);
    }
  }

  lemma LockedKeepsStore(w: World, op: Op, works: bool)
    requires Inv(w.store) && Fresh(w.store, op)
    ensures var after := SessionStores.LockedApply(w.store, w.now, op, works).store;
            Inv(after) && ScopesKept(w.store, after)
  {
    hide Apply, Sessions.Inv;
    ApplyKeepsInv(w.store, w.now, op);
    ApplyKeepsAllScopes(w.store, w.now, op);
  }

  lemma AdminKeepsInv(w: World, op: Op, works: bool, w': World)
    requires WorldInv(w) && Next(w, Admin(op, works), w')
    ensures WorldInv(w')
  {
    AdminKeepsBalanced(w, op, works, w');
    hide Balanced, RunShape, RunBound, RunAudited, ScopesKept, AuditLog.Holds, SlotsOk, HistoryOk,
         SessionStores.LockedApply, Sessions.Inv, Fresh;
    LockedKeepsStore(w, op, works);
    AdminKeepsRuns(w, w'.store);
    assert RunsOk(w');
  }

  lemma ArriveKeepsBalancedFor(w: World, id: nat, run: Run, h: TokenHash)
    requires BalancedFor(w, h) && id !in w.runs && !run.paid && run.sends == 0
    ensures BalancedFor(Put(w, id, run), h)
  {
    var runs := w.runs[id := run];
    assert PaidRuns(runs, h) == PaidRuns(w.runs, h) && SentRuns(runs, h) == SentRuns(w.runs, h);
  }

  lemma ArriveKeepsRuns(w: World, id: nat, run: Run)
    requires RunsOk(w) && AuditKnown(w) && SlotsOk(w.replay, w.runs) && id !in w.runs
    requires RunShape(run) && RunBound(w.store, run) && SlotOk(w.replay, run) && run.slot.None? && run.phase.Received?
    ensures var w' := Put(w, id, run); RunsOk(w') && AuditKnown(w') && SlotsOk(w'.replay, w'.runs)
  {
    hide RunShape, RunBound;
    NoEntriesNoEvents(w.audit, id);
  }

  lemma ArriveKeepsBalanced(w: World, id: nat, run: Run)
    requires Balanced(w) && id !in w.runs && !run.paid && run.sends == 0
    ensures Balanced(Put(w, id, run))
  {
    hide BalancedFor;
    forall h ensures BalancedFor(Put(w, id, run), h) {
      assert BalancedFor(w, h);
      ArriveKeepsBalancedFor(w, id, run, h);
    }
  }

  lemma NewRunIsOk(w: World, run: Run)
    requires run == Run(run.request, Received, None, None, None, false, 0, "", 0)
    ensures RunShape(run) && RunBound(w.store, run) && SlotOk(w.replay, run)
  {
  }

  lemma ArriveKeepsInv(w: World, id: nat, request: BrokerRequest, w': World)
    requires WorldInv(w) && Next(w, Arrive(id, request), w')
    ensures WorldInv(w')
  {
    var run := Run(request, Received, None, None, None, false, 0, "", 0);
    NewRunIsOk(w, run);
    hide RunShape, RunBound, SlotOk, RunsOk, AuditKnown, SlotsOk, HistoryOk, Sessions.Inv, Balanced, AuditLog.Holds,
         AuditLog.Lawful, Events;
    ArriveKeepsRuns(w, id, run);
    ArriveKeepsBalanced(w, id, run);
  }

  lemma TickKeepsInv(w: World, now: nat, instant: nat, w': World)
    requires WorldInv(w) && Next(w, Tick(now, instant), w')
    ensures WorldInv(w')
  {
    forall h ensures BalancedFor(w', h) {
      assert BalancedFor(w, h);
    }
  }

  lemma AdvanceKeepsInv(w: World, id: nat, input: Input, w': World)
    requires WorldInv(w) && AdvanceRun(w, id, input, w')
    ensures WorldInv(w')
  {
    AdvanceKeepsRunsOk(w, id, input, w');
    AdvanceKeepsLog(w, id, input, w');
    AdvanceKeepsBalanced(w, id, input, w');
    AdvanceKeepsSlots(w, id, input, w');
  }

  lemma StepKeepsInv(w: World, step: Step, w': World)
    requires WorldInv(w) && Next(w, step, w')
    ensures WorldInv(w')
  {
    match step
    case Admin(op, works) => AdminKeepsInv(w, op, works, w');
    case Tick(now, instant) => TickKeepsInv(w, now, instant, w');
    case Arrive(id, request) => ArriveKeepsInv(w, id, request, w');
    case Advance(id, input) => AdvanceKeepsInv(w, id, input, w');
  }

  lemma InitHasInv(w: World)
    requires Init(w)
    ensures WorldInv(w)
  {
    forall h ensures BalancedFor(w, h) {
      assert PaidRuns(w.runs, h) == {} && SentRuns(w.runs, h) == {};
    }
  }

  /** The invariant holds at every point of every interleaving. */
  lemma {:induction false} BehaviourKeepsInv(worlds: seq<World>, steps: seq<Step>, i: nat)
    requires Behaviour(worlds, steps) && i <= |steps|
    ensures WorldInv(worlds[i])
  {
    if i == 0 {
      InitHasInv(worlds[0]);
    } else {
      BehaviourKeepsInv(worlds, steps, i - 1);
      StepKeepsInv(worlds[i - 1], steps[i - 1], worlds[i]);
    }
  }

  /** What the invariant says of the shared state. */
  lemma StateAt(worlds: seq<World>, steps: seq<Step>, i: nat, h: TokenHash)
    requires Behaviour(worlds, steps) && i <= |steps|
    ensures Inv(worlds[i].store) && LogOk(worlds[i]) && BalancedFor(worlds[i], h)
  {
    hide Next, RunsOk, BalancedFor, LogOk, Sessions.Inv, HistoryOk, SlotsOk, AuditKnown;
    BehaviourKeepsInv(worlds, steps, i);
  }

  /** What the invariant says of one run. */
  lemma RunAt(worlds: seq<World>, steps: seq<Step>, i: nat, id: nat)
    requires Behaviour(worlds, steps) && i <= |steps| && id in worlds[i].runs
    ensures var w, run := worlds[i], worlds[i].runs[id];
            RunShape(run) && RunBound(w.store, run) && RunAudited(w.audit, id, run) && Inv(w.store) && LogOk(w)
  {
    hide Next, RunShape, RunBound, RunAudited, LogOk, Sessions.Inv;
    BehaviourKeepsInv(worlds, steps, i);
  }

  // --- What the pipeline guarantees ---------------------------------------------------------------------------

  /** Transport calls made with a budgeted token never exceed the budget it was minted with. */
  lemma TransportsWithinMintedBudget(worlds: seq<World>, steps: seq<Step>, i: nat, h: TokenHash)
    requires Behaviour(worlds, steps) && i <= |steps|
    requires h in worlds[i].minted && worlds[i].minted[h].Some?
    ensures worlds[i].transported[h] <= worlds[i].minted[h].value
  {
    BehaviourKeepsInv(worlds, steps, i);
    var w := worlds[i];
    assert SentRuns(w.runs, h) <= PaidRuns(w.runs, h) by {
      forall id | id in SentRuns(w.runs, h) ensures id in PaidRuns(w.runs, h) {
        assert RunShape(w.runs[id]);
      }
    }
    assert BalancedFor(w, h);
    SubsetSize(SentRuns(w.runs, h), PaidRuns(w.runs, h));
  }

  lemma StepKeepsMinted(w: World, step: Step, w': World, h: TokenHash)
    requires Next(w, step, w') && BalancedFor(w, h) && h in w.minted
    ensures h in w'.minted && w'.minted[h] == w.minted[h]
  {
    if step.Advance? {
      AdvanceEffects(w, step.id, step.input, w');
    }
  }

  /** The budget recorded at minting is never rewritten. */
  lemma {:induction false} MintedIsFixed(worlds: seq<World>, steps: seq<Step>, i: nat, j: nat, h: TokenHash)
    requires Behaviour(worlds, steps) && i <= j <= |steps| && h in worlds[i].minted
    ensures h in worlds[j].minted && worlds[j].minted[h] == worlds[i].minted[h]
    decreases j - i
  {
    hide Next, BalancedFor, LogOk, Sessions.Inv;
    if i < j {
      MintedIsFixed(worlds, steps, i, j - 1, h);
      StateAt(worlds, steps, j - 1, h);
      StepKeepsMinted(worlds[j - 1], steps[j - 1], worlds[j], h);
    }
  }

  /** The session file can be had, and the load check accepts what it lists. */
  predicate Usable(store: Store, works: bool) {
    works && BudgetsNested(store)
  }

  /** Authentication passes exactly on a usable file and a live token, and says which of the refusals applies. */
  lemma AuthenticationOutcome(run: Run, store: Store, now: nat, works: bool)
    requires Inv(store) && run.request.protocol == PROTOCOL_VERSION
    ensures var known, live := run.request.hash in store.byHash, TokenLive(store, run.request.hash, now);
            Authenticate(run, store, now, works).phase ==
            if !Usable(store, works) || !known then Denying(InvalidToken)
            else if !live then Denying(SessionIsRevoked)
            else Authenticated
  {
  }

  /** The budget step passes exactly on a usable file and a live token with something left to spend. */
  lemma PaymentOutcome(run: Run, store: Store, now: nat, works: bool)
    requires Inv(store) && run.request.hash in store.byHash
    ensures var live, budget := TokenLive(store, run.request.hash, now), BudgetOf(store, run.request.hash);
            Pay(run, SessionStores.LockedConsume(store, run.request.hash, now, works).1).phase ==
            if !Usable(store, works) then Denying(BudgetCheckFailed)
            else if !live then Denying(SessionIsRevoked)
            else if budget == Some(0) then Denying(OutOfBudget)
            else Paid
  {
  }

  /** A session's constraints let a request through when they let every dimension of it through. */
  predicate InDelegation(record: Record, q: Request) {
    record.constraints.Some? ==> forall d :: Satisfies(record.constraints.value, q, d)
  }

  /**
   * Screening lets a run through exactly on a canonical destination that egress and policy both allow and that
   * is within the session's delegation, and fixes it as the run's target; otherwise the first of these that
   * fails is the reason.
   */
  lemma ScreeningOutcome(run: Run, input: Input)
    requires input.Screening? && run.record.Some?
    ensures var run' := Screen(run, input);
            && run' == run.(phase := run'.phase, target := run'.target)
            && (run'.phase == InScope <==>
                  && input.destination.Some? && input.egress && input.policyDenial.None?
                  && InDelegation(run.record.value,
                       Request(run.request.credential, run.record.value.environment, input.destination.value.0,
                               run.request.verb, input.destination.value.1)))
            && (run'.phase == InScope ==>
                  run'.target == Some(
                    Request(run.request.credential, run.record.value.environment, input.destination.value.0,
                            run.request.verb, input.destination.value.1)))
            && (run'.phase != InScope ==>
                  && run'.target == run.target
                  && run'.phase == Denying(
                       if input.destination.None? then InvalidDestination
                       else if !input.egress then DestinationDenied
                       else if input.policyDenial.Some? then PolicyDenied(input.policyDenial.value)
                       else OutsideDelegation))
  {
    hide CheckRequest, Satisfies;
    if input.destination.Some? && run.record.value.constraints.Some? {
      CheckNamesFirstViolation(
        run.record.value.constraints.value, TargetOf(run, input.destination.value.0, input.destination.value.1));
    }
  }

  /** The token is dead and the run has not paid. */
  predicate BarredRun(w: World, id: nat) {
    && id in w.runs
    && w.runs[id].request.hash in w.store.byHash
    && !TokenLive(w.store, w.runs[id].request.hash, w.now)
    && !w.runs[id].paid
  }

  lemma DeadTokenCannotPay(st: Store, h: TokenHash, now: nat, works: bool)
    requires Inv(st) && h in st.byHash && !TokenLive(st, h, now)
    ensures SessionStores.LockedConsume(st, h, now, works).1.Err?
  {
  }

  /** A run becomes paid only by its own budget step on a live token. */
  lemma PaymentStep(w: World, step: Step, w': World, id: nat)
    requires Next(w, step, w') && Inv(w.store) && id in w.runs && w.runs[id].request.hash in w.store.byHash
             && !w.runs[id].paid
    ensures id in w'.runs && w'.runs[id].request == w.runs[id].request
    ensures w'.runs[id].paid ==> w.runs[id].phase.InScope? && TokenLive(w.store, w.runs[id].request.hash, w.now)
    ensures w'.runs[id].paid ==> BudgetsNested(w.store)
  {
    if step.Advance? {
      AdvanceEffects(w, step.id, step.input, w');
      var h := w.runs[id].request.hash;
      if !TokenLive(w.store, h, w.now) && step.input.StoreCall? {
        DeadTokenCannotPay(w.store, h, w.now, step.input.works);
      }
    }
  }

  lemma StepExtendsStore(w: World, step: Step, w': World)
    requires Next(w, step, w') && Inv(w.store)
    ensures Extends(w.store, w'.store) && w.now <= w'.now
  {
    match step
    case Admin(op, _) => ApplyExtends(w.store, w.now, op);
    case Advance(id, input) =>
      AdvanceEffects(w, id, input, w');
      if w.runs[id].phase.InScope? {
        ApplyExtends(w.store, w.now, OpConsume(w.runs[id].request.hash));
      }
    case _ =>
  }

  lemma StepKeepsBarred(w: World, step: Step, w': World, id: nat)
    requires Next(w, step, w') && Inv(w.store) && BarredRun(w, id)
    ensures BarredRun(w', id)
  {
    var h := w.runs[id].request.hash;
    PaymentStep(w, step, w', id);
    StepExtendsStore(w, step, w');
    DeadTokenStaysDead(w.store, w'.store, h, w.now, w'.now);
  }

  /**
   * No request whose budget step follows the death of its session, or of any ancestor, reaches transport:
   * if the token is dead at `i` and the run has not paid by then, it has sent nothing at any later point.
   */
  lemma {:induction false} DeadSessionNeverReachesTransport(worlds: seq<World>, steps: seq<Step>, i: nat, j: nat,
      id: nat)
    requires Behaviour(worlds, steps) && i <= j <= |steps| && BarredRun(worlds[i], id)
    ensures BarredRun(worlds[j], id) && worlds[j].runs[id].sends == 0
    decreases j - i
  {
    hide Next, Sessions.TokenLive, RunBound, RunAudited, LogOk, Sessions.Inv;
    if i < j {
      DeadSessionNeverReachesTransport(worlds, steps, i, j - 1, id);
      RunAt(worlds, steps, j - 1, id);
      StepKeepsBarred(worlds[j - 1], steps[j - 1], worlds[j], id);
    }
    RunAt(worlds, steps, j, id);
  }

  /** The chain of live ancestors, all of which admit the run's request, that stands behind a payment. */
  ghost predicate AuthorizedBy(w: World, run: Run, chain: seq<SessionId>)
    requires run.record.Some? && run.target.Some?
  {
    && LiveChain(w.store.sessions, run.record.value.parent, chain, w.now)
    && Admits(run.record.value.constraints, run.target.value)
    && forall k | 0 <= k < |chain| ::
         chain[k] in w.store.sessions && Admits(w.store.sessions[chain[k]].constraints, run.target.value)
  }

  lemma LiveTokenHasAuthority(w: World, run: Run) returns (chain: seq<SessionId>)
    requires Inv(w.store) && RunBound(w.store, run) && run.record.Some? && run.target.Some?
    requires TokenLive(w.store, run.request.hash, w.now)
    ensures AuthorizedBy(w, run, chain)
  {
    var stored := w.store.sessions[run.record.value.id];
    assert Linked(w.store.sessions, stored);
    chain := WalkFindsChain(w.store.sessions, stored.parent, {}, w.now);
    SameScopeAdmitsAlike(stored, run.record.value, run.target.value);
    forall k | 0 <= k < |chain|
      ensures chain[k] in w.store.sessions && Admits(w.store.sessions[chain[k]].constraints, run.target.value)
    {
      LiveChainAdmits(w.store, stored, chain, w.now, run.target.value, k);
    }
  }

  lemma UnknownTokenCannotPay(w: World, step: Step, w': World, id: nat)
    requires Next(w, step, w') && id in w.runs && !w.runs[id].paid && RunShape(w.runs[id])
             && RunBound(w.store, w.runs[id])
    requires id in w'.runs && w'.runs[id].paid
    ensures w.runs[id].phase.InScope? && w.runs[id].request.hash in w.store.byHash
  {
    if step.Advance? {
      AdvanceEffects(w, step.id, step.input, w');
    }
  }

  /** A run pays, and so can reach transport, only under a live chain every member of which admits its request. */
  lemma PaymentNeedsLiveAuthority(worlds: seq<World>, steps: seq<Step>, i: nat, id: nat) returns (chain: seq<SessionId>)
    requires Behaviour(worlds, steps) && i < |steps| && id in worlds[i].runs && id in worlds[i + 1].runs
    requires !worlds[i].runs[id].paid && worlds[i + 1].runs[id].paid
    ensures var run := worlds[i].runs[id];
            && run.record.Some? && run.target.Some?
            && TokenLive(worlds[i].store, run.request.hash, worlds[i].now) && BudgetsNested(worlds[i].store)
            && AuthorizedBy(worlds[i], run, chain)
  {
    BehaviourKeepsInv(worlds, steps, i);
    assert RunShape(worlds[i].runs[id]) && RunBound(worlds[i].store, worlds[i].runs[id]);
    UnknownTokenCannotPay(worlds[i], steps[i], worlds[i + 1], id);
    PaymentStep(worlds[i], steps[i], worlds[i + 1], id);
    chain := LiveTokenHasAuthority(worlds[i], worlds[i].runs[id]);
  }

  /** Two paid runs of one token and request id registered at least a replay window apart. */
  lemma RepeatsAreAWindowApart(worlds: seq<World>, steps: seq<Step>, i: nat, a: nat, b: nat)
    requires Behaviour(worlds, steps) && i <= |steps|
    requires a in worlds[i].runs && b in worlds[i].runs && a != b
    requires worlds[i].runs[a].paid && worlds[i].runs[b].paid
    requires worlds[i].runs[a].request.requestId.Some? && worlds[i].runs[b].request.requestId.Some?
    requires KeyOf(worlds[i].runs[a].request) == KeyOf(worlds[i].runs[b].request)
    requires Replay.WindowNeverFull(worlds[i].replay.calls, Replay.REPLAY_TTL, Replay.REPLAY_CACHE_MAX_ENTRIES)
    ensures var h, x, y := worlds[i].replay, worlds[i].runs[a].slot, worlds[i].runs[b].slot;
            && x.Some? && y.Some? && x.value < |h.calls| && y.value < |h.calls|
            && (h.calls[x.value].now - h.calls[y.value].now >= Replay.REPLAY_TTL
                || h.calls[y.value].now - h.calls[x.value].now >= Replay.REPLAY_TTL)
  {
    BehaviourKeepsInv(worlds, steps, i);
    SlotsAreAWindowApart(worlds[i].replay, worlds[i].instant, worlds[i].runs, a, b);
  }

  lemma SlotsAreAWindowApart(h: ReplayHistory, instant: nat, runs: map<nat, Run>, a: nat, b: nat)
    requires HistoryOk(h, instant) && SlotsOk(h, runs) && a in runs && b in runs && a != b
    requires runs[a].paid && runs[b].paid
    requires runs[a].request.requestId.Some? && runs[b].request.requestId.Some?
    requires KeyOf(runs[a].request) == KeyOf(runs[b].request)
    requires Replay.WindowNeverFull(h.calls, Replay.REPLAY_TTL, Replay.REPLAY_CACHE_MAX_ENTRIES)
    ensures var x, y := runs[a].slot, runs[b].slot;
            && x.Some? && y.Some? && x.value < |h.calls| && y.value < |h.calls|
            && (h.calls[x.value].now - h.calls[y.value].now >= Replay.REPLAY_TTL
                || h.calls[y.value].now - h.calls[x.value].now >= Replay.REPLAY_TTL)
  {
    hide Replay.Registered, Replay.WindowNeverFull, Replay.CacheRun, Replay.ClockNondecreasing;
    assert SlotOk(h, runs[a]) && SlotOk(h, runs[b]);
    var x, y := runs[a].slot.value, runs[b].slot.value;
    if x < y {
      Replay.PassesAreAWindowApart(
        h.calls, Replay.REPLAY_TTL, Replay.REPLAY_CACHE_MAX_ENTRIES, h.states, h.answers, x, y);
    } else {
      Replay.PassesAreAWindowApart(
        h.calls, Replay.REPLAY_TTL, Replay.REPLAY_CACHE_MAX_ENTRIES, h.states, h.answers, y, x);
    }
  }

  // --- A session file that refuses itself -------------------------------------------------------------------

  /** Once the session file is refused, no step changes what it lists, and none lets a run pay. */
  lemma StepKeepsRefused(w: World, step: Step, w': World)
    requires Next(w, step, w') && !BudgetsNested(w.store)
    ensures w'.store == w.store
    ensures forall id | id in w'.runs && w'.runs[id].paid :: id in w.runs && w.runs[id].paid
  {
    if step.Advance? {
      AdvanceEffects(w, step.id, step.input, w');
    }
  }

  /**
   * Once some child may outspend its parent, the session file stays as it is and refused: no run that had not
   * paid by then, whether it has already arrived or not, ever pays or reaches transport.
   */
  lemma {:induction false} RefusedFileStopsPayment(worlds: seq<World>, steps: seq<Step>, i: nat, j: nat, id: nat)
    requires Behaviour(worlds, steps) && i <= j <= |steps| && !BudgetsNested(worlds[i].store)
    requires id in worlds[j].runs && (id in worlds[i].runs ==> !worlds[i].runs[id].paid)
    ensures worlds[j].store == worlds[i].store
    ensures !worlds[j].runs[id].paid && worlds[j].runs[id].sends == 0
    decreases j - i
  {
    hide Next, RunBound, RunAudited, LogOk, Sessions.Inv;
    RunAt(worlds, steps, j, id);
    RefusedFileStays(worlds, steps, i, j, id);
  }

  lemma {:induction false} RefusedFileStays(worlds: seq<World>, steps: seq<Step>, i: nat, j: nat, id: nat)
    requires Behaviour(worlds, steps) && i <= j <= |steps| && !BudgetsNested(worlds[i].store)
    requires id in worlds[i].runs ==> !worlds[i].runs[id].paid
    ensures worlds[j].store == worlds[i].store
    ensures id in worlds[j].runs ==> !worlds[j].runs[id].paid
    decreases j - i
  {
    hide Next;
    if i < j {
      RefusedFileStays(worlds, steps, i, j - 1, id);
      StepKeepsRefused(worlds[j - 1], steps[j - 1], worlds[j]);
    }
  }

  /** The session file becomes refused only when a run pays from a token some child of which holds as much. */
  lemma FileIsRefusedOnlyByPayment(worlds: seq<World>, steps: seq<Step>, i: nat) returns (id: nat, child: SessionId)
    requires Behaviour(worlds, steps) && i < |steps|
    requires BudgetsNested(worlds[i].store) && !BudgetsNested(worlds[i + 1].store)
    ensures id in worlds[i].runs && id in worlds[i + 1].runs
    ensures !worlds[i].runs[id].paid && worlds[i + 1].runs[id].paid
    ensures var st, h := worlds[i].store, worlds[i].runs[id].request.hash;
            && h in st.byHash && child in st.sessions
            && st.sessions[child].parent == Some(st.byHash[h])
            && Budget(st.sessions[child]) == BudgetOf(st, h)
  {
    var w, w' := worlds[i], worlds[i + 1];
    id, child := 0, "";
    BehaviourKeepsInv(worlds, steps, i);
    match steps[i]
    case Admin(op, works) =>
      ApplyKeepsInv(w.store, w.now, op);
      assert false;
    case Advance(run, input) =>
      AdvanceEffects(w, run, input, w');
      id := run;
      assert RunShape(w.runs[id]) && RunBound(w.store, w.runs[id]);
      child := OutspendingChild(w.store, w.runs[id].request.hash, w.now);
    case _ => assert false;
  }

  lemma OutspendingChild(st: Store, h: TokenHash, now: nat) returns (child: SessionId)
    requires Inv(st) && BudgetsNested(st) && !BudgetsNested(ConsumeBudget(st, h, now).0)
    ensures ConsumeBudget(st, h, now).1.Ok? && h in st.byHash && child in st.sessions
    ensures st.sessions[child].parent == Some(st.byHash[h]) && Budget(st.sessions[child]) == BudgetOf(st, h)
  {
    ConsumeKeepsBudgetsNestedIff(st, h, now);
    child :| child in st.sessions && st.sessions[child].parent == Some(st.byHash[h]) && child != st.byHash[h]
             && Budget(st.sessions[child]) == Budget(st.sessions[st.byHash[h]]);
  }

  // --- What the audit log says of a run ---------------------------------------------------------------------

  predicate Readable(w: World) {
    AuditLog.Load(w.codec, w.log).Ok?
  }

  lemma ReadableIsIntact(w: World)
    requires LogOk(w)
    ensures Readable(w) <==> AuditLog.Intact(w.codec, w.log, Events(w.audit))
    ensures Readable(w) ==> AuditLog.Load(w.codec, w.log) == Ok(Events(w.audit))
  {
    AuditLog.LoadHeld(w.codec, w.log, Events(w.audit));
  }

  /** The append with which a run at `w` came to its answer: what it answers and which record it leaves. */
  ghost predicate AnsweredBy(w: World, id: nat, step: Step, response: Response, mine: seq<AuditLog.Event>) {
    && id in w.runs && step.Advance? && step.id == id && step.input.Append?
    && (w.runs[id].phase.Executed? || w.runs[id].phase.Denying?)
    && Reports(w.runs[id], step.input.body)
    && (response.Allowed? <==> w.runs[id].phase.Executed? && Readable(w) && step.input.disk.Synced?)
    && (response.Denied? <==> w.runs[id].phase.Denying? && Readable(w) && step.input.disk.Synced?)
    && (response.Denied? ==> response.reason == w.runs[id].phase.reason)
    && (response.Allowed? ==> response == Allowed(w.runs[id].phase.status, Scrubber.Scrub(w.runs[id].upstream)))
    && |mine| <= 1
    && (mine != [] <==> Readable(w) && (step.input.disk.Synced? || step.input.disk.Unsynced?))
    && (mine != [] ==> mine[0].body == step.input.body)
  }

  lemma AppendAnswers(w: World, step: Step, w': World, id: nat)
    requires LogOk(w) && Next(w, step, w') && id in w.runs && id in w'.runs && RunAudited(w.audit, id, w.runs[id])
    requires !Answered(w.runs[id].phase) && Answered(w'.runs[id].phase)
    ensures AnsweredBy(w, id, step, w'.runs[id].phase.response, RunEvents(w'.audit, id))
  {
    hide SessionStores.LockedValidate, SessionStores.LockedConsume, AuditLog.AppendWith, Replay.Registered,
         Scrubber.Scrub, Constraints.CheckRequest, ReasonBytes, LogOk, Readable;
    var input := ChangingStep(w, step, w', id);
    AdvanceFollowsOrder(w, w.runs[id], input);
    hide RunAfter, WorldAfter, AnsweredBy;
    AppendStepIsAnswer(w, id, input, w');
  }

  lemma AppendStepIsAnswer(w: World, id: nat, input: Input, w': World)
    requires LogOk(w) && AdvanceRun(w, id, input, w') && input.Append? && RunEvents(w.audit, id) == []
    ensures id in w'.runs && w'.runs[id].phase.Answering?
    ensures AnsweredBy(w, id, Advance(id, input), w'.runs[id].phase.response, RunEvents(w'.audit, id))
  {
    hide AdvanceRun, AuditLog.AppendWith, LogOk, Readable, LogAfter, Recorded, RunEvents, AuditLog.Intact, DecisionOf,
         AuditLog.Link, Events, AuditLog.Load, AuditLog.Holds;
    AppendStep(w, id, input, w');
    AppendEffect(w, id, w.runs[id], input);
    ReadableIsIntact(w);
  }

  /** An answer stands, and so do the records of the run. */
  lemma AnswerStands(w: World, step: Step, w': World, id: nat)
    requires WorldInv(w) && Next(w, step, w') && id in w.runs && Answered(w.runs[id].phase)
    ensures id in w'.runs && Answered(w'.runs[id].phase) && w'.runs[id].phase.response == w.runs[id].phase.response
    ensures RunEvents(w'.audit, id) == RunEvents(w.audit, id)
  {
    hide SessionStores.LockedValidate, SessionStores.LockedConsume, AuditLog.AppendWith, Replay.Registered,
         Scrubber.Scrub, Constraints.CheckRequest, ReasonBytes, LogOk, SessionStores.LockedApply, RunShape,
         HistoryOk, SlotsOk, Balanced;
    if step.Advance? {
      AdvanceIsFramed(w, step.id, step.input, w');
      assert RunAudited(w.audit, step.id, w.runs[step.id]);
      AdvanceKeepsAudited(w, step.id, w.runs[step.id], step.input);
    }
  }

  lemma {:induction false} AnswerHasItsAppend(worlds: seq<World>, steps: seq<Step>, i: nat, id: nat) returns (k: nat)
    requires Behaviour(worlds, steps) && i <= |steps| && id in worlds[i].runs && Answered(worlds[i].runs[id].phase)
    ensures k < i
    ensures AnsweredBy(worlds[k], id, steps[k], worlds[i].runs[id].phase.response, RunEvents(worlds[i].audit, id))
  {
    hide Next, AnsweredBy, RunEvents;
    BehaviourKeepsInv(worlds, steps, i - 1);
    var w := worlds[i - 1];
    if id in w.runs && Answered(w.runs[id].phase) {
      k := AnswerHasItsAppend(worlds, steps, i - 1, id);
      AnswerStands(w, steps[i - 1], worlds[i], id);
    } else {
      k := i - 1;
      NewRunIsNotAnswered(w, steps[k], worlds[i], id);
      AppendAnswers(w, steps[k], worlds[i], id);
    }
  }

  lemma NewRunIsNotAnswered(w: World, step: Step, w': World, id: nat)
    requires Next(w, step, w') && id in w'.runs && Answered(w'.runs[id].phase)
    ensures id in w.runs
  {
    if step.Advance? {
      AdvanceIsFramed(w, step.id, step.input, w');
    }
  }

  /** A decision records an Allow, a policy's reason up to the bound, or any other reason whole. */
  ghost predicate Carries(decision: AuditLog.Decision, phase: Phase) {
    match phase
    case Executed(_) => decision == AuditLog.Allow
    case Denying(PolicyDenied(text)) =>
      decision.Deny? && BoundedReason.LongestPrefixWithin(text, decision.reason, AuditLog.MAX_DENY_REASON_BYTES)
    case Denying(r) => decision == AuditLog.Deny(ReasonBytes(r))
    case _ => true
  }

  lemma DecisionCarriesReason(phase: Phase)
    ensures Carries(DecisionOf(phase), phase)
  {
    if phase.Denying? && phase.reason.PolicyDenied? {
      BoundedReason.TruncatedIsLongestPrefix(phase.reason.text);
    } else if phase.Denying? {
      FixedReasonsAreShort(phase.reason);
    }
  }

  lemma FixedReasonsAreShort(r: Reason)
    requires !r.PolicyDenied?
    ensures |ReasonBytes(r)| <= 32
  {
  }

  /** No two of the fixed reasons are recorded alike. */
  lemma FixedReasonsAreDistinct(a: Reason, b: Reason)
    requires !a.PolicyDenied? && !b.PolicyDenied? && ReasonBytes(a) == ReasonBytes(b)
    ensures a == b
  {
    var x, y := ReasonBytes(a), ReasonBytes(b);
    assert |x| == |y| && x[0] == y[0] && x[1] == y[1] && x[8] == y[8];
  }

  lemma AnswerCarries(w: World, id: nat, step: Step, response: Response, mine: seq<AuditLog.Event>)
    requires AnsweredBy(w, id, step, response, mine)
    ensures mine != [] ==> Carries(mine[0].body.decision, w.runs[id].phase)
  {
    hide Carries, DecisionOf;
    DecisionCarriesReason(w.runs[id].phase);
  }

  /**
   * A finished run attempted exactly one audit append, at some step `k`. It answers Allow or Deny exactly when
   * the log was readable and the record synced; its record, of the decision it had reached, is in the log
   * exactly when the log was readable and the record written, synced or not; there is never a second one. An
   * Allow means that it paid, called transport exactly once, and that its bounded body carries no
   * recognizable secret.
   */
  lemma FinishedRunIsAccountedFor(worlds: seq<World>, steps: seq<Step>, i: nat, id: nat) returns (k: nat)
    requires Behaviour(worlds, steps) && i <= |steps| && id in worlds[i].runs && worlds[i].runs[id].phase.Done?
    ensures var w, run := worlds[i], worlds[i].runs[id];
            && k < i && run.attempts == 1
            && AnsweredBy(worlds[k], id, steps[k], run.phase.response, RunEvents(w.audit, id))
            && AuditLog.Holds(w.codec, w.log, Events(w.audit))
            && (RunEvents(w.audit, id) != [] ==>
                  Carries(RunEvents(w.audit, id)[0].body.decision, worlds[k].runs[id].phase))
            && (run.phase.response.Allowed? ==>
                  && run.request.protocol == PROTOCOL_VERSION && run.paid && run.sends == 1
                  && Scrubber.Clean(run.phase.response.body) && |run.phase.response.body| <= MAX_RESPONSE_BODY_BYTES)
  {
    hide AnsweredBy, Next, RunEvents, AuditLog.Holds;
    BehaviourKeepsInv(worlds, steps, i);
    assert RunShape(worlds[i].runs[id]);
    k := AnswerHasItsAppend(worlds, steps, i, id);
    AnswerCarries(worlds[k], id, steps[k], worlds[i].runs[id].phase.response, RunEvents(worlds[i].audit, id));
    Scrubber.ScrubIsClean(worlds[i].runs[id].upstream);
    Scrubber.ScrubNeverGrows(worlds[i].runs[id].upstream);
  }

  /** A sync that fails after the write: the run answers that the write failed, and its record is in the log. */
  lemma UnsyncedRecordStays(worlds: seq<World>, steps: seq<Step>, i: nat, id: nat, eventId: string,
      body: AuditLog.NewEvent)
    requires Behaviour(worlds, steps) && i < |steps| && Readable(worlds[i])
    requires steps[i] == Advance(id, Append(eventId, body, AuditLog.Unsynced))
    ensures id in worlds[i + 1].runs && worlds[i + 1].runs[id].phase == Answering(AuditWriteFailed)
    ensures var stored := AuditLog.Link(worlds[i].codec, Events(worlds[i].audit), eventId, body);
            && body.decision == DecisionOf(worlds[i].runs[id].phase)
            && AuditLog.Load(worlds[i + 1].codec, worlds[i + 1].log) == Ok(Events(worlds[i].audit) + [stored])
  {
    hide Fits, WorldAfter, AuditLog.Load, AuditLog.Link, DecisionOf, Readable;
    BehaviourKeepsInv(worlds, steps, i);
    BehaviourKeepsInv(worlds, steps, i + 1);
    UnsyncedStep(worlds[i], id, steps[i].input, worlds[i + 1]);
  }

  lemma UnsyncedStep(w: World, id: nat, input: Input, w': World)
    requires AdvanceRun(w, id, input, w') && LogOk(w) && LogOk(w')
    requires Readable(w) && input.Append? && input.disk.Unsynced?
    ensures id in w'.runs && w'.runs[id].phase == Answering(AuditWriteFailed)
    ensures var stored := AuditLog.Link(w.codec, Events(w.audit), input.id, input.body);
            && input.body.decision == DecisionOf(w.runs[id].phase)
            && AuditLog.Load(w'.codec, w'.log) == Ok(Events(w.audit) + [stored])
  {
    hide AdvanceRun, AuditLog.AppendWith, AuditLog.Holds, AuditLog.Intact, DecisionOf, Readable, AuditLog.Load,
         AuditLog.Lawful, AuditLog.Link;
    AppendStep(w, id, input, w');
    AppendEffect(w, id, w.runs[id], input);
    ReadableIsIntact(w);
    ReadableIsIntact(w');
  }

  lemma AppendStep(w: World, id: nat, input: Input, w': World)
    requires AdvanceRun(w, id, input, w') && input.Append?
    ensures id in w.runs && Appends(w.runs[id].phase, input) && Reports(w.runs[id], input.body)
    ensures id in w'.runs && w'.codec == w.codec && AuditEffect(w, id, input, w')
    ensures w'.runs[id].phase.Answering?
    ensures var phase, response := w.runs[id].phase, w'.runs[id].phase.response;
            if LogAfter(w, input).1.Err? then response == AuditWriteFailed
            else if phase.Executed? then response == Allowed(phase.status, Scrubber.Scrub(w.runs[id].upstream))
            else response == Denied(phase.reason)
  {
    hide SessionStores.LockedValidate, SessionStores.LockedConsume, AuditLog.AppendWith, Replay.Registered,
         Scrubber.Scrub, Constraints.CheckRequest, ReasonBytes, AuditLog.Recorded;
    AdvanceIsFramed(w, id, input, w');
  }

  /** The log becomes unreadable exactly by an append cut short. */
  lemma LogIsTornIff(worlds: seq<World>, steps: seq<Step>, i: nat)
    requires Behaviour(worlds, steps) && i < |steps| && Readable(worlds[i])
    ensures !Readable(worlds[i + 1]) <==>
            && steps[i].Advance? && steps[i].input.Append?
            && steps[i].input.disk.Cut? && steps[i].input.disk.bytes > 0
  {
    hide Readable, LogOk, Sessions.Inv, BalancedFor, AdvanceRun, SessionStores.LockedApply, AuditLog.Intact;
    StateAt(worlds, steps, i, "");
    StateAt(worlds, steps, i + 1, "");
    var w, w' := worlds[i], worlds[i + 1];
    ReadableIsIntact(w);
    ReadableIsIntact(w');
    if steps[i].Advance? {
      var id, input := steps[i].id, steps[i].input;
      AdvanceIsFramed(w, id, input, w');
      if input.Append? {
        AppendStep(w, id, input, w');
        hide LogAfter, AuditAfter, Events;
        AppendEffect(w, id, w.runs[id], input);
      }
    }
  }

  lemma StepKeepsTorn(w: World, step: Step, w': World)
    requires LogOk(w) && !Readable(w) && Next(w, step, w')
    ensures w'.codec == w.codec && w'.log == w.log
  {
    if step.Advance? {
      AdvanceIsFramed(w, step.id, step.input, w');
    }
  }

  /**
   * Fail closed: once an append was cut short, the file stays as it is, and no run not answered by then is
   * ever answered Allow or Deny, whether it has already arrived or not.
   */
  lemma {:induction false} TornLogStopsAnswers(worlds: seq<World>, steps: seq<Step>, i: nat, j: nat, id: nat)
    requires Behaviour(worlds, steps) && i <= j <= |steps| && !Readable(worlds[i])
    requires id in worlds[j].runs && Answered(worlds[j].runs[id].phase)
    requires id in worlds[i].runs ==> !Answered(worlds[i].runs[id].phase)
    ensures worlds[j].log == worlds[i].log && worlds[j].runs[id].phase.response == AuditWriteFailed
  {
    hide Next;
    var k := AnswerHasItsAppend(worlds, steps, j, id);
    if k < i {
      AnsweredAfterAppend(worlds, steps, k, i, id);
      assert false;
    }
    TornLogStays(worlds, steps, i, k);
    TornLogStays(worlds, steps, i, j);
  }

  lemma {:induction false} TornLogStays(worlds: seq<World>, steps: seq<Step>, i: nat, j: nat)
    requires Behaviour(worlds, steps) && i <= j <= |steps| && !Readable(worlds[i])
    ensures worlds[j].log == worlds[i].log && !Readable(worlds[j])
    ensures worlds[j].codec == worlds[i].codec
    decreases j - i
  {
    hide Next, Readable, LogOk, Sessions.Inv, BalancedFor;
    if i < j {
      TornLogStays(worlds, steps, i, j - 1);
      StateAt(worlds, steps, j - 1, "");
      StepKeepsTorn(worlds[j - 1], steps[j - 1], worlds[j]);
      SameLogReadsAlike(worlds[j - 1], worlds[j]);
    }
  }

  lemma SameLogReadsAlike(w: World, w': World)
    requires w'.codec == w.codec && w'.log == w.log
    ensures Readable(w') == Readable(w)
  {
  }

  /** A run that has made its append is answered from then on. */
  lemma {:induction false} AnsweredAfterAppend(worlds: seq<World>, steps: seq<Step>, k: nat, i: nat, id: nat)
    requires Behaviour(worlds, steps) && k < i <= |steps| && id in worlds[k].runs
    requires steps[k].Advance? && steps[k].id == id && Appends(worlds[k].runs[id].phase, steps[k].input)
    ensures id in worlds[i].runs && Answered(worlds[i].runs[id].phase)
    decreases i
  {
    hide Next, Appends, WorldInv;
    if i == k + 1 {
      AppendStepAnswers(worlds[k], steps[k], worlds[i], id);
    } else {
      AnsweredAfterAppend(worlds, steps, k, i - 1, id);
      BehaviourKeepsInv(worlds, steps, i - 1);
      AnswerStands(worlds[i - 1], steps[i - 1], worlds[i], id);
    }
  }

  lemma AppendStepAnswers(w: World, step: Step, w': World, id: nat)
    requires Next(w, step, w') && id in w.runs
    requires step.Advance? && step.id == id && Appends(w.runs[id].phase, step.input)
    ensures id in w'.runs && Answered(w'.runs[id].phase)
  {
    AdvanceIsFramed(w, id, step.input, w');
  }

  // --- Denials ---------------------------------------------------------------------------------------------

  /**
   * In every interleaving a denied run has spent budget exactly if its reason arises after the budget step,
   * and has called transport exactly if its reason arises after that: a refusal before a side effect leaves
   * none behind.
   */
  lemma DeniedRunLeavesNoEarlierEffect(worlds: seq<World>, steps: seq<Step>, i: nat, id: nat)
    requires Behaviour(worlds, steps) && i <= |steps| && id in worlds[i].runs
    requires worlds[i].runs[id].phase.Done? && worlds[i].runs[id].phase.response.Denied?
    ensures var run, reason := worlds[i].runs[id], worlds[i].runs[id].phase.response.reason;
            && (run.paid <==> PastBudget(reason))
            && (run.sends == 1 <==> reason.TransportFailure? || reason.ResponseTooLarge?)
            && run.sends <= 1
  {
    BehaviourKeepsInv(worlds, steps, i);
    assert RunShape(worlds[i].runs[id]);
  }

  /** What must have been so, just before, for the action with `input` to turn a run away with `r`. */
  ghost predicate Justified(w: World, run: Run, input: Input, r: Reason) {
    var known, live := run.request.hash in w.store.byHash, TokenLive(w.store, run.request.hash, w.now);
    match r
    case ProtocolUnsupported => run.request.protocol != PROTOCOL_VERSION
    case InvalidToken => input.StoreCall? && (!Usable(w.store, input.works) || !known)
    case SessionIsRevoked => input.StoreCall? && Usable(w.store, input.works) && known && !live
    case ReplayDetected => run.request.requestId.Some? && exists j :: EarlierPass(w, KeyOf(run.request), j)
    case InvalidDestination => input.Screening? && input.destination.None?
    case DestinationDenied => input.Screening? && input.destination.Some? && !input.egress
    case PolicyDenied(text) => input.Screening? && input.egress && input.policyDenial == Some(text)
    case OutsideDelegation =>
      && run.record.Some? && input.Screening? && input.destination.Some? && input.egress && input.policyDenial.None?
      && !Admits(run.record.value.constraints, TargetOf(run, input.destination.value.0, input.destination.value.1))
    case OutOfBudget =>
      input.StoreCall? && Usable(w.store, input.works) && live && BudgetOf(w.store, run.request.hash) == Some(0)
    case BudgetCheckFailed => input.StoreCall? && !Usable(w.store, input.works)
    case TransportFailure => input.Exchange? && input.upstream.None?
    case ResponseTooLarge =>
      input.Exchange? && input.upstream.Some? && |input.upstream.value.1| > MAX_RESPONSE_BODY_BYTES
    case _ => input == Resolution(Some(r))
  }

  /** The pair passed the replay guard less than a window ago. */
  predicate EarlierPass(w: World, key: Replay.Key, j: nat) {
    && j < |w.replay.calls| && j < |w.replay.answers|
    && w.replay.answers[j] && w.replay.calls[j].key == key
    && Replay.Age(w.instant, w.replay.calls[j].now) < Replay.REPLAY_TTL
  }

  lemma RefusedRegistrationIsGenuine(w: World, key: Replay.Key, cache: Replay.Cache)
    requires HistoryOk(w.replay, w.instant)
    requires Replay.Registered(LastCache(w.replay), Replay.REPLAY_TTL, Replay.REPLAY_CACHE_MAX_ENTRIES, w.instant,
               key, cache, false)
    ensures exists j :: EarlierPass(w, key, j)
  {
    hide Replay.Registered;
    var h := w.replay;
    HistoryGrows(h, w.instant, key, cache, false);
    var h' := Extended(h, Replay.Call(w.instant, key), cache, false);
    var j := Replay.RefusalsAreGenuine(
      h'.calls, Replay.REPLAY_TTL, Replay.REPLAY_CACHE_MAX_ENTRIES, h'.states, h'.answers, |h.calls|);
    assert EarlierPass(w, key, j);
  }

  lemma DenialIsJustified(w: World, run: Run, input: Input)
    requires Inv(w.store) && HistoryOk(w.replay, w.instant) && RunShape(run) && RunBound(w.store, run)
    requires Fits(w, run, input) && !run.phase.Denying? && RunAfter(w, run, input).phase.Denying?
    ensures Justified(w, run, input, RunAfter(w, run, input).phase.reason)
  {
    hide SessionStores.LockedValidate, SessionStores.LockedConsume, AuditLog.AppendWith, Replay.Registered,
         Scrubber.Scrub, HistoryOk, ReasonBytes, TokenLive, Usable, Constraints.CheckRequest, Sessions.Inv,
         EarlierPass, Sessions.BudgetOf;
    assert run.phase.InScope? ==> run.request.hash in w.store.byHash;
    hide RunShape, RunBound;
    match run.phase
    case Received =>
      if run.request.protocol == PROTOCOL_VERSION {
        AuthenticationOutcome(run, w.store, w.now, input.works);
      }
    case Authenticated =>
      if run.request.requestId.Some? {
        RefusedRegistrationIsGenuine(w, KeyOf(run.request), input.cache);
      }
    case InScope => PaymentOutcome(run, w.store, w.now, input.works);
    case _ =>
  }

  /**
   * Every refusal in every interleaving names its cause: an unusable session file or an unknown token, a dead
   * one, a spent budget, a repeat of a pair that did pass within the window, a destination of this very run
   * outside its delegation, or what the parts outside the model answered.
   */
  lemma RefusalsNameTheirCause(worlds: seq<World>, steps: seq<Step>, i: nat, id: nat)
    requires Behaviour(worlds, steps) && i < |steps| && id in worlds[i].runs && id in worlds[i + 1].runs
    requires !worlds[i].runs[id].phase.Denying? && worlds[i + 1].runs[id].phase.Denying?
    ensures steps[i].Advance? && steps[i].id == id
    ensures Justified(worlds[i], worlds[i].runs[id], steps[i].input, worlds[i + 1].runs[id].phase.reason)
  {
    hide Justified;
    BehaviourKeepsInv(worlds, steps, i);
    assert RunShape(worlds[i].runs[id]) && RunBound(worlds[i].store, worlds[i].runs[id]);
    var input := ChangingStep(worlds[i], steps[i], worlds[i + 1], id);
    DenialIsJustified(worlds[i], worlds[i].runs[id], input);
  }

  /** The budget step fails closed exactly when the session file cannot be had or is refused. */
  lemma BudgetCheckFailsIff(worlds: seq<World>, steps: seq<Step>, i: nat, id: nat)
    requires Behaviour(worlds, steps) && i < |steps| && id in worlds[i].runs && worlds[i].runs[id].phase.InScope?
    requires steps[i].Advance? && steps[i].id == id
    ensures steps[i].input.StoreCall? && id in worlds[i + 1].runs
    ensures worlds[i + 1].runs[id].phase == Denying(BudgetCheckFailed) <==>
            !Usable(worlds[i].store, steps[i].input.works)
  {
    RunAt(worlds, steps, i, id);
    var w, run := worlds[i], worlds[i].runs[id];
    assert run.request.hash in w.store.byHash;
    hide SessionStores.LockedConsume, AuditLog.AppendWith, Usable, TokenLive, RunShape, RunBound, RunAudited, LogOk,
         Sessions.Inv, SessionStores.LockedValidate, Replay.Registered, Scrubber.Scrub, ReasonBytes;
    AdvanceIsFramed(w, id, steps[i].input, worlds[i + 1]);
    PaymentOutcome(run, w.store, w.now, steps[i].input.works);
  }

  lemma ChangingStep(w: World, step: Step, w': World, id: nat) returns (input: Input)
    requires Next(w, step, w') && id in w.runs && id in w'.runs && w'.runs[id] != w.runs[id]
    ensures step == Advance(id, input) && Fits(w, w.runs[id], input) && w'.runs[id] == RunAfter(w, w.runs[id], input)
  {
    hide Fits, RunAfter, Apply;
    input := if step.Advance? then step.input else Nothing;
    if step.Advance? && step.id == id {
      AdvanceIsFramed(w, id, input, w');
    }
  }

  // --- No stage is skipped ---------------------------------------------------------------------------------

  /** The run as it was when `p` last began to hold of it, and the step that made it hold. */
  lemma {:induction false} LastBegan(worlds: seq<World>, steps: seq<Step>, i: nat, id: nat, p: Run -> bool)
    returns (k: nat)
    requires Behaviour(worlds, steps) && i <= |steps| && id in worlds[i].runs && p(worlds[i].runs[id])
    requires forall request :: !p(Run(request, Received, None, None, None, false, 0, "", 0))
    ensures k < i && id in worlds[k].runs && id in worlds[k + 1].runs
    ensures !p(worlds[k].runs[id]) && p(worlds[k + 1].runs[id])
    ensures steps[k].Advance? && steps[k].id == id && Fits(worlds[k], worlds[k].runs[id], steps[k].input)
    ensures worlds[k + 1].runs[id] == RunAfter(worlds[k], worlds[k].runs[id], steps[k].input)
    decreases i
  {
    hide Next, Fits, RunAfter;
    assert i > 0 by {
      assert Init(worlds[0]);
    }
    k := i - 1;
    if id in worlds[k].runs && p(worlds[k].runs[id]) {
      k := LastBegan(worlds, steps, i - 1, id, p);
    } else {
      if id !in worlds[k].runs {
        NewRunIsFresh(worlds[k], steps[k], worlds[i], id);
        assert false;
      }
      var input := ChangingStep(worlds[k], steps[k], worlds[i], id);
    }
  }

  lemma NewRunIsFresh(w: World, step: Step, w': World, id: nat)
    requires Next(w, step, w') && id in w'.runs && id !in w.runs
    ensures exists request :: w'.runs[id] == Run(request, Received, None, None, None, false, 0, "", 0)
  {
    if step.Advance? {
      AdvanceIsFramed(w, step.id, step.input, w');
    }
  }

  /** What a run is about does not change once it is known. */
  lemma StepKeepsRun(w: World, step: Step, w': World, id: nat)
    requires Next(w, step, w') && id in w.runs && RunShape(w.runs[id])
    ensures id in w'.runs && w'.runs[id].request == w.runs[id].request
    ensures w.runs[id].record.Some? ==> w'.runs[id].record == w.runs[id].record
    ensures w.runs[id].target.Some? ==> w'.runs[id].target == w.runs[id].target
  {
    hide Scrubber.Scrub;
    if step.Advance? {
      AdvanceEffects(w, step.id, step.input, w');
    }
  }

  lemma {:induction false} RunIsKept(worlds: seq<World>, steps: seq<Step>, k: nat, i: nat, id: nat)
    requires Behaviour(worlds, steps) && k <= i <= |steps| && id in worlds[k].runs
    ensures id in worlds[i].runs && worlds[i].runs[id].request == worlds[k].runs[id].request
    ensures worlds[k].runs[id].record.Some? ==> worlds[i].runs[id].record == worlds[k].runs[id].record
    ensures worlds[k].runs[id].target.Some? ==> worlds[i].runs[id].target == worlds[k].runs[id].target
    decreases i
  {
    hide Next, RunShape, RunBound, RunAudited, LogOk, Sessions.Inv;
    if k < i {
      RunIsKept(worlds, steps, k, i - 1, id);
      RunAt(worlds, steps, i - 1, id);
      StepKeepsRun(worlds[i - 1], steps[i - 1], worlds[i], id);
    }
  }

  /** The run authenticated: protocol, an accepted session file and a live token, whose record it keeps. */
  ghost predicate AuthenticatedIn(w: World, step: Step, id: nat, run: Run) {
    && step == Advance(id, StoreCall(true)) && run.request.protocol == PROTOCOL_VERSION
    && BudgetsNested(w.store) && TokenLive(w.store, run.request.hash, w.now)
    && run.record.Some? && run.record == Lookup(w.store, run.request.hash)
  }

  /** It passed the replay guard, if it brought a request id. */
  ghost predicate NotReplayedIn(step: Step, id: nat, run: Run) {
    && step.Advance? && step.id == id
    && if run.request.requestId.None? then step.input.Nothing? else step.input.Registration? && step.input.isNew
  }

  /** Its destination was canonical, allowed by egress and by policy, and within its delegation. */
  ghost predicate ScreenedIn(step: Step, id: nat, run: Run) {
    && step.Advance? && step.id == id && step.input.Screening?
    && step.input.destination.Some? && step.input.egress && step.input.policyDenial.None?
    && run.record.Some?
    && run.target == Some(
         Request(run.request.credential, run.record.value.environment, step.input.destination.value.0,
                 run.request.verb, step.input.destination.value.1))
    && InDelegation(run.record.value, run.target.value)
  }

  /** It paid, on an accepted session file, with a token that was live and had something left. */
  ghost predicate PaidIn(w: World, step: Step, id: nat, run: Run) {
    && step == Advance(id, StoreCall(true))
    && BudgetsNested(w.store) && TokenLive(w.store, run.request.hash, w.now)
    && BudgetOf(w.store, run.request.hash) != Some(0)
  }

  // One action on its own

  lemma AuthenticationEnters(w: World, run: Run, input: Input, id: nat)
    requires Inv(w.store) && Fits(w, run, input) && RunAfter(w, run, input).phase.Authenticated?
    ensures run.phase.Received? && AuthenticatedIn(w, Advance(id, input), id, RunAfter(w, run, input))
  {
    hide AuditLog.AppendWith, Scrubber.Scrub, ReasonBytes, Replay.Registered, SessionStores.LockedConsume;
    AdvanceFollowsOrder(w, run, input);
  }

  lemma ReplayGuardEnters(w: World, run: Run, input: Input, id: nat)
    requires Fits(w, run, input) && RunAfter(w, run, input).phase.PastReplay?
    ensures run.phase.Authenticated? && NotReplayedIn(Advance(id, input), id, RunAfter(w, run, input))
  {
    hide AuditLog.AppendWith, Scrubber.Scrub, ReasonBytes, Replay.Registered, SessionStores.LockedConsume,
         SessionStores.LockedValidate;
    AdvanceFollowsOrder(w, run, input);
  }

  lemma ScreeningEnters(w: World, run: Run, input: Input, id: nat)
    requires Fits(w, run, input) && RunAfter(w, run, input).phase.InScope?
    ensures run.phase.PastReplay? && ScreenedIn(Advance(id, input), id, RunAfter(w, run, input))
  {
    hide AuditLog.AppendWith, Scrubber.Scrub, ReasonBytes, Replay.Registered, SessionStores.LockedConsume,
         SessionStores.LockedValidate, InDelegation, Screen;
    AdvanceFollowsOrder(w, run, input);
    ScreeningOutcome(run, input);
  }

  lemma PaymentEnters(w: World, run: Run, input: Input, id: nat)
    requires Inv(w.store) && RunShape(run) && RunBound(w.store, run) && Fits(w, run, input)
    requires !run.paid && RunAfter(w, run, input).paid
    ensures run.phase.InScope? && PaidIn(w, Advance(id, input), id, RunAfter(w, run, input))
  {
    hide AuditLog.AppendWith, Scrubber.Scrub, ReasonBytes, Replay.Registered, SessionStores.LockedConsume,
         SessionStores.LockedValidate, TokenLive, Constraints.CheckRequest, Sessions.Inv;
    if run.phase.InScope? {
      assert run.request.hash in w.store.byHash;
      PaymentOutcome(run, w.store, w.now, input.works);
    }
  }

  /** Resolution prepares a run exactly when no failure is reported, and otherwise refuses it with that failure. */
  lemma ResolutionOutcome(w: World, run: Run, input: Input)
    requires run.phase.Paid? && Fits(w, run, input)
    ensures var run' := RunAfter(w, run, input);
            && run' == run.(phase := run'.phase)
            && (run'.phase == Prepared <==> input == Resolution(None))
            && forall r :: run'.phase == Denying(r) <==> input == Resolution(Some(r))
  {
  }

  lemma PreparationEnters(w: World, run: Run, input: Input)
    requires Fits(w, run, input) && RunAfter(w, run, input).phase.Prepared?
    ensures run.phase.Paid? && input == Resolution(None)
  {
    hide AuditLog.AppendWith, Scrubber.Scrub, ReasonBytes, Replay.Registered, SessionStores.LockedConsume,
         SessionStores.LockedValidate, Constraints.CheckRequest;
  }

  lemma TransportEnters(w: World, run: Run, input: Input)
    requires Fits(w, run, input) && run.sends == 0 && RunAfter(w, run, input).sends > 0
    ensures run.phase.Prepared? && input.Exchange?
  {
    hide AuditLog.AppendWith, Scrubber.Scrub, ReasonBytes, Replay.Registered, SessionStores.LockedConsume,
         SessionStores.LockedValidate, Constraints.CheckRequest;
  }

  // Whole runs

  lemma EnteredInScope(worlds: seq<World>, steps: seq<Step>, i: nat, id: nat) returns (a: nat, b: nat, c: nat)
    requires Behaviour(worlds, steps) && i <= |steps| && id in worlds[i].runs && worlds[i].runs[id].phase.InScope?
    ensures a < b < c < i
    ensures AuthenticatedIn(worlds[a], steps[a], id, worlds[i].runs[id])
    ensures NotReplayedIn(steps[b], id, worlds[i].runs[id])
    ensures ScreenedIn(steps[c], id, worlds[i].runs[id])
  {
    hide Next, Fits, RunAfter, RunShape, RunBound, RunAudited, LogOk, Sessions.Inv, TokenLive, Lookup, InDelegation,
         BudgetsNested;
    c := LastBegan(worlds, steps, i, id, (r: Run) => r.phase.InScope?);
    ScreeningEnters(worlds[c], worlds[c].runs[id], steps[c].input, id);
    RunIsKept(worlds, steps, c + 1, i, id);
    b := LastBegan(worlds, steps, c, id, (r: Run) => r.phase.PastReplay?);
    ReplayGuardEnters(worlds[b], worlds[b].runs[id], steps[b].input, id);
    RunIsKept(worlds, steps, b + 1, i, id);
    a := LastBegan(worlds, steps, b, id, (r: Run) => r.phase.Authenticated?);
    RunAt(worlds, steps, a, id);
    AuthenticationEnters(worlds[a], worlds[a].runs[id], steps[a].input, id);
    RunIsKept(worlds, steps, a + 1, i, id);
  }

  /**
   * A run that has paid authenticated, passed the replay guard and was screened, in this order, before its
   * budget step: no stage is skipped in any interleaving.
   */
  lemma PaidRunPassedEveryStage(worlds: seq<World>, steps: seq<Step>, i: nat, id: nat)
    returns (a: nat, b: nat, c: nat, d: nat)
    requires Behaviour(worlds, steps) && i <= |steps| && id in worlds[i].runs && worlds[i].runs[id].paid
    ensures a < b < c < d < i
    ensures AuthenticatedIn(worlds[a], steps[a], id, worlds[i].runs[id])
    ensures NotReplayedIn(steps[b], id, worlds[i].runs[id])
    ensures ScreenedIn(steps[c], id, worlds[i].runs[id])
    ensures PaidIn(worlds[d], steps[d], id, worlds[i].runs[id])
  {
    hide Next, Fits, RunAfter, RunShape, RunBound, RunAudited, LogOk, Sessions.Inv, TokenLive, Lookup, InDelegation,
         BudgetsNested, BudgetOf;
    d := LastBegan(worlds, steps, i, id, (r: Run) => r.paid);
    RunAt(worlds, steps, d, id);
    PaymentEnters(worlds[d], worlds[d].runs[id], steps[d].input, id);
    a, b, c := EnteredInScope(worlds, steps, d, id);
    RunIsKept(worlds, steps, d, i, id);
    RunIsKept(worlds, steps, d + 1, i, id);
  }

  /** And a run that has called transport did so after paying, and after its credential was resolved and injected. */
  lemma SentRunPassedEveryStage(worlds: seq<World>, steps: seq<Step>, i: nat, id: nat)
    returns (a: nat, b: nat, c: nat, d: nat, e: nat, f: nat)
    requires Behaviour(worlds, steps) && i <= |steps| && id in worlds[i].runs && worlds[i].runs[id].sends > 0
    ensures a < b < c < d < e < f < i
    ensures AuthenticatedIn(worlds[a], steps[a], id, worlds[i].runs[id])
    ensures NotReplayedIn(steps[b], id, worlds[i].runs[id])
    ensures ScreenedIn(steps[c], id, worlds[i].runs[id])
    ensures PaidIn(worlds[d], steps[d], id, worlds[i].runs[id])
    ensures steps[e] == Advance(id, Resolution(None))
    ensures steps[f].Advance? && steps[f].id == id && steps[f].input.Exchange?
  {
    hide Next, Fits, RunAfter, RunBound, RunAudited, LogOk, Sessions.Inv, TokenLive, Lookup, InDelegation,
         BudgetsNested, BudgetOf, Scrubber.Scrub;
    f := LastBegan(worlds, steps, i, id, (r: Run) => r.sends > 0);
    TransportEnters(worlds[f], worlds[f].runs[id], steps[f].input);
    e := LastBegan(worlds, steps, f, id, (r: Run) => r.phase.Prepared?);
    PreparationEnters(worlds[e], worlds[e].runs[id], steps[e].input);
    RunAt(worlds, steps, e, id);
    assert worlds[e].runs[id].paid;
    hide RunShape;
    a, b, c, d := PaidRunPassedEveryStage(worlds, steps, e, id);
    RunIsKept(worlds, steps, e, i, id);
  }

  lemma ExecutionEnters(w: World, run: Run, input: Input)
    requires Fits(w, run, input) && RunAfter(w, run, input).phase.Executed?
    ensures var run' := RunAfter(w, run, input); input == Exchange(Some((run'.phase.status, run'.upstream)))
  {
    hide AuditLog.AppendWith, Scrubber.Scrub, ReasonBytes, Replay.Registered, SessionStores.LockedConsume,
         SessionStores.LockedValidate, Constraints.CheckRequest;
  }

  /** An Allow carries the status that came back from the run's transport call, and its body, scrubbed. */
  lemma AllowedCarriesTheExchange(worlds: seq<World>, steps: seq<Step>, i: nat, id: nat)
    returns (f: nat, upstream: string)
    requires Behaviour(worlds, steps) && i <= |steps| && id in worlds[i].runs
    requires worlds[i].runs[id].phase.Done? && worlds[i].runs[id].phase.response.Allowed?
    ensures var response := worlds[i].runs[id].phase.response;
            && f < i && steps[f] == Advance(id, Exchange(Some((response.status, upstream))))
            && response.body == Scrubber.Scrub(upstream)
  {
    hide Next, Fits, RunAfter, Scrubber.Scrub, Readable, RunEvents;
    var k := AnswerHasItsAppend(worlds, steps, i, id);
    var phase := worlds[k].runs[id].phase;
    upstream := worlds[k].runs[id].upstream;
    f := LastBegan(worlds, steps, k, id, (r: Run) => r.phase == phase && r.upstream == upstream);
    ExecutionEnters(worlds[f], worlds[f].runs[id], steps[f].input);
  }
}
