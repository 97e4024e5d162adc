# Verified model of the vaultx broker's authority machinery

This project models, in Dafny, the parts of vaultx that decide what a bearer token may do and what
is recorded about it, and proves what those parts promise:

- **delegated sessions**: path globs, constraint narrowing, the session store, the load-time checker of
  the session file, and the reload-modify-persist wrapper several processes share;
- **the request engine**: the replay cache, the response scrubber, the truncation of denial reasons, and
  the staged pipeline as a state machine over all interleavings;
- **the audit log**: a hash-chained, line-framed, append-only file, and the upload of its events past a
  watermark;
- **the edges**: newline framing under a length cap, the live-connection counter, and query-parameter
  injection.

`dafny verify dfyconfig.toml` checks the whole project.

## How the code is modelled

- **Form.** Stateful objects are classes (`InMemorySessionStore`, `FileSessionStore`, `ReplayCache`,
  `JsonlAppendStore`, `BufReader`, `Uploader`) whose methods are proved equal to functions on values, or to
  a relation where the source leaves a choice open; the theorems are about those functions. Loops over
  buffers are methods with loops. Pure code is functions. Concurrent code (pipeline runs, connection
  slots) is a transition relation, and its theorems quantify over every run.
- **Bytes and text.** Byte strings are `string`, one `char` per byte, except where UTF-8 matters
  (`BoundedReason`), which encodes Unicode scalar values per section 3 of RFC 3629.
- **Outside functions.** A token is represented by its verifier hash. The JSON codec and the event digest
  are parameters with stated hypotheses: parsing inverts encoding for events within the denial-reason
  bound (which parsing re-checks), encodings are nonempty and hold no raw newline (section 7 of RFC 8259), and,
  only where a theorem says so, the digest has no collisions. Policy, canonicalization, egress, credential
  resolution, injection and transport are arbitrary inputs of the pipeline's steps. Generated session ids are
  fresh (`Fresh`); a colliding token verifier is refused as in the code.
- **Disks.** An audit append meets one of four disks: the file cannot be opened, the write stops after some
  bytes, the sync fails after the whole record was written, or all goes well. A locked call on the session
  file either works or fails without replacing the file. Both are arbitrary inputs of the pipeline's steps,
  which run on the file-backed session store (`LockedStepIsLockedApply`) and on the bytes of the audit file,
  from whatever both files hold at the start.
- **Time** is a natural number. Session operations take the clock as an argument. `RefusedStaysRefused`,
  `RefusedByOneRefusedByAll`, the ledger theorems and the pipeline assume it does not decrease; elsewhere
  it is arbitrary. `Instant::duration_since` is saturating subtraction.
- **Order.** The session file lists records in any order (the code sorts by id), and the replay cache
  evicts any one of several equally old entries (the code breaks ties by key). Every theorem holds for all
  such choices.
- **Locks** make each store operation, cache registration and audit append one atomic step; `rename` is an
  atomic replacement of the file.

## Where the code and its documentation differ

- `FileSessionStore` documents that its load check proves containment of what it wrote. The check compares
  a child's stored budget with the parent's *current* one, so a parent that spends after delegating can make
  the store refuse its own file: `SpendingCanBreakReload` is such a run,
  `ReloadAcceptedIffBudgetsNested` and `ConsumeKeepsBudgetsNestedIff` give the exact condition, and
  `InstancesActAsOneStore` shows that from then on every operation of every instance is refused. In the
  pipeline every later request is then denied as `invalid_session`, or `budget_check_failed` if it was already
  authenticated, and no run that had not paid ever reaches transport (`RefusedFileStopsPayment`).
- It also documents that a hand-edited child can never gain authority beyond what minting proved. A record
  stripped of both its link and its constraints passes the check and admits every request
  (`StrippedLinkIsAccepted`); of the accepted edits that keep or remove the link, those that stay within the
  minted parent's authority are the ones that keep it, or whose parent restricts nothing (`EditStaysWithinIff`).
  A link moved to another session is checked against that session alone.
- The audit store documents that a crash leaves nothing or a truncated line. An append can also fail with its
  whole record in the file, at the sync: the request is answered `audit_write_failed` and its event is in the
  log (`UnsyncedRecordStays`, `AppendOnAnyDisk`).
- `upload_pending_audit` documents that the watermark is the highest accepted sequence. The code saves the end
  of the last chunk, rejected or not: `RejectedEventMovesWatermark` is a failing input, and
  `WatermarkIsHighestAcceptedIff` says that a successful upload meets the promise exactly when the last position
  of the last chunk was not rejected.
- It also documents that accepted prefixes are never sent again. The watermark is saved only after the last
  chunk, so an upload that fails later submits its accepted chunks again, whatever the retry meets
  (`AcceptedPrefixIsResent`). `AcceptedIsResubmittedIff` and `SuccessfulRetryResendsAccepted` give the exact
  condition on accepted events, and `ResubmittedIffFailed` the one on all events.
- Narrowing is described as intersecting, and it never admits more than both operands. It can refuse what both
  admit, for two reasons: hosts and methods are intersected literally although they are compared without case
  (`NarrowIsNotTheMeet`, `MethodCaseIsLost`), and of two path patterns that cross, such as `/a/*` and `/*/b`,
  none is kept (`CrossingPathsAreLost`). `NarrowIsTheMeetIffLossless` gives the exact condition on the two sets.
- Parameter names are validated as lowercase tokens, which permits `%` and `&`. Of the permitted names, exactly
  those with an ampersand or a valid escape, such as `a&b` and `%61`, do not read back under their own name
  (`PermittedNameIsSafeIff`, `InjectedKeyReadsBackIffSafe`).
- The server's reader documents a clean end only before any byte of a new line. Carriage returns are dropped
  first, so the end is clean exactly when nothing but carriage returns came before it (`CleanEndIff`).

## Model

| member | source | states |
|---|---|---|
| `PathGlob.MatchSegmentsIsGlobMatches` | crates/vaultx-policy/src/matcher.rs:60-83 | the recursive matcher accepts exactly the paths of the right length (or at least it, under a trailing `**`) whose segments match position by position |
| `PathGlob.ValidPatternIff` | crates/vaultx-policy/src/matcher.rs:18-44 | character by character: a pattern is valid exactly when it starts with `/` and has no empty segment, no `..` segment, and `**` as a segment only at its end |
| `PathGlob.PathMatchesIff` | crates/vaultx-policy/src/matcher.rs:46-90 | a valid pattern matches a path exactly when the path has as many segments, or at least those before a trailing `**`, and each equals the pattern's or meets a `*` and is not empty |
| `PathGlob.GlobSubsumesIsContainment` | crates/vaultx-broker/src/session.rs:251-292 | for all strings, `glob_subsumes(p, c)` holds if and only if `c` is a valid pattern and every path string `c` matches is matched by `p` |
| `PathGlob.EscapingPath` | crates/vaultx-broker/src/session.rs:251-292 | a refused subsumption with a valid child has a concrete path the child matches and the parent does not |
| `PathGlob.GlobSubsumesIsAPreorder` | crates/vaultx-broker/src/session.rs:251-292 | subsumption is reflexive exactly on valid patterns, and transitive |
| `Constraints.CheckNamesFirstViolation` | crates/vaultx-broker/src/session.rs:172-218 | a request passes exactly when it satisfies every dimension, hosts and methods up to the case of ASCII letters, and a refusal names the first failed one in order |
| `Constraints.EqIgnoreCaseIff` | crates/vaultx-broker/src/session.rs:190-200 | the comparison of hosts and methods holds exactly for strings equal position by position but for the case of ASCII letters |
| `Constraints.CheckIgnoresCase` | crates/vaultx-broker/src/session.rs:190-208 | the verdict does not depend on the case of the request's host and method |
| `Constraints.NarrowAdmitsOnlyCommon` | crates/vaultx-broker/src/session.rs:142-162 | what a narrowed set admits, parent and request both admit |
| `Constraints.NarrowedBudgetIsTheMeet` | crates/vaultx-broker/src/session.rs:156-159 | a narrowed budget lets through `n` requests exactly when both operands do, for every `n` |
| `Constraints.NarrowIsNotTheMeet` | crates/vaultx-broker/src/session.rs:221-229 | a request both operands admit and their narrowing refuses, because hosts that differ in case do not intersect |
| `NarrowExact.MeetIsIntersection` | crates/vaultx-broker/src/session.rs:251-292 | two path globs match a path together exactly when they overlap and their syntactic meet matches it |
| `NarrowExact.NarrowIsTheMeetIffLossless` | crates/vaultx-broker/src/session.rs:142-245 | narrowing admits every request both operands admit if and only if either some dimension has no common value, or all case-equal names have a representative in the literal intersection and every two overlapping patterns have their meet covered by a kept pattern |
| `NarrowExact.LossyNarrowLosesOne` | crates/vaultx-broker/src/session.rs:142-245 | when that condition fails, a concrete request both operands admit and their narrowing refuses |
| `NarrowExact.MethodCaseIsLost` | crates/vaultx-broker/src/session.rs:221-229 | methods that differ only in case are lost |
| `NarrowExact.CrossingPathsAreLost` | crates/vaultx-broker/src/session.rs:231-245 | for any literal segments `x`, `y`, narrowing `/x/*` by `/*/y` refuses `/x/y`, which both admit |
| `Constraints.NarrowFixpointIsContainment` | crates/vaultx-broker/src/session.rs:149-245 | narrowing a child by a parent leaves it unchanged if and only if it is contained in the parent on every dimension and in budget |
| `Constraints.NarrowIsIdempotent` | crates/vaultx-broker/src/session.rs:149-245 | narrowing twice equals narrowing once, exactly unless an invalid pattern is inherited from the parent |
| `Sessions.WalkIsLiveChain` | crates/vaultx-broker/src/session.rs:444-464 | on any records, cyclic ones included, the ancestor walk succeeds if and only if a finite chain of live ancestors to a parentless record exists |
| `Sessions.ApplyKeepsInv` | crates/vaultx-broker/src/session.rs:612-771 | every operation keeps the two indexes mirrored and every child linked, constrained, of its parent's identity and within its scope; all but spending keep child budgets within parent budgets |
| `Sessions.RunKeepsInv` | crates/vaultx-broker/src/session.rs:612-771 | the same over every run of operations |
| `Sessions.ConsumeKeepsBudgetsNestedIff` | crates/vaultx-broker/src/session.rs:733-771 | spending keeps budgets nested if and only if no child holds exactly what the spender held |
| `Sessions.BudgetsChangeOnlyBySpending` | crates/vaultx-broker/src/session.rs:733-771 | only a successful spend changes a budget, by one, and only the spender's |
| `Sessions.ApplyChangesOnlyItsSubject` | crates/vaultx-broker/src/session.rs:542-771 | an operation changes no session but the one it is about and unlearns no verifier; refused ones and validations change nothing; a write is due exactly after minting, revoking and spending from a budget |
| `Sessions.CreateAndRevokeOutcome` | crates/vaultx-broker/src/session.rs:574-654 | a session is created exactly when its verifier is unused, and revoked exactly when it exists |
| `Sessions.DelegationOutcome` | crates/vaultx-broker/src/session.rs:658-727 | delegation mints exactly when the patterns are valid, the parent exists and is neither revoked nor expired, something is restricted and the verifier is unused; otherwise it names the first failure and changes nothing; the child has the parent's identity and at most the authority of parent and request |
| `Sessions.DeadParentMintsNothing` | crates/vaultx-broker/src/session.rs:684-686 | once revoked or expired, a session is never a parent again, in any later store, by id or by token |
| `Sessions.RevokedParentMintsNothing` | crates/vaultx-broker/src/session.rs:684-686 | the same from the moment of its revocation, after any later run |
| `Sessions.CreatedTokenLivesUntilExpiry` | crates/vaultx-broker/src/session.rs:612-654 | a token minted directly validates exactly until its (saturating) expiry, with the identity it was minted for |
| `Sessions.DelegatedTokenLivesWithParent` | crates/vaultx-broker/src/session.rs:658-727 | a delegated token is live exactly when its parent's token is |
| `Sessions.RevocationKillsExactlyDescendants` | crates/vaultx-broker/src/session.rs:574-582 | revocation kills exactly the tokens of the session and of its descendants |
| `Sessions.DeadTokenStaysDead` | crates/vaultx-broker/src/session.rs:434-464 | a known dead token is dead in every later store under a nondecreasing clock |
| `Sessions.RefusedStaysRefused` | crates/vaultx-broker/src/session.rs:542-572 | a token refused as revoked is refused as revoked after every later run |
| `Sessions.LiveChainAdmits` | crates/vaultx-broker/src/session.rs:136-162 | every ancestor on a live chain admits what the descendant admits |
| `LoadCheck.FirstTamper` | crates/vaultx-broker/src/session.rs:1591-1635 | the checker accepts exactly when no record objects, and otherwise reports the first objection in file order |
| `LoadCheck.AcceptedIff` | crates/vaultx-broker/src/session.rs:1591-1635 | a file is accepted exactly when every record is a root without constraints, or has constraints, a listed parent, and no more scope or budget than it on any dimension |
| `LoadCheck.LaterRecordsWin` | crates/vaultx-broker/src/session.rs:1736-1756 | of several records with one id, or one verifier, the last in the file counts |
| `LoadCheck.AcceptedFileContainsAuthority` | crates/vaultx-broker/src/session.rs:1591-1635 | for any accepted record list, hand-edited or cyclic, a token that validates belongs to a listed live record with a finite live chain, every member of which admits at least as much and may spend at least as much |
| `LoadCheck.LoadInvertsPersist` | crates/vaultx-broker/src/session.rs:1736-1768 | loading a written store gives back both of its indexes |
| `LoadCheck.ReloadAcceptedIffBudgetsNested` | crates/vaultx-broker/src/session.rs:1591-1635 | a written store is accepted back if and only if no child's remaining budget exceeds its parent's |
| `LoadCheck.RunReloadsIffBudgetsNested` | crates/vaultx-broker/src/session.rs:1724-1733 | the same for the store after any run from an empty one |
| `LoadCheck.SpendingCanBreakReload` | crates/vaultx-broker/src/session.rs:1614-1624 | a concrete run (budgets 5 and 5, the parent spends one) whose file is refused |
| `HandEdits.StrippedLinkIsAccepted` | crates/vaultx-broker/src/session.rs:1591-1635 | removing parent and constraints of any record of a written file is accepted; while that record is live, its token validates whatever became of its ancestors, admits every request and has no budget |
| `HandEdits.EditStaysWithinIff` | crates/vaultx-broker/src/session.rs:1470-1480 | an accepted rewrite of one delegated record that keeps or removes its link stays within the authority of the parent it was minted under if and only if it keeps the link or that parent restricts nothing |
| `SessionStores.InMemorySessionStore.WalkAncestors` | crates/vaultx-broker/src/session.rs:444-464 | the loop terminates on any contents and computes the ancestor walk |
| `SessionStores.InMemorySessionStore.ValidateToken` | crates/vaultx-broker/src/session.rs:542-572 | answers as the validation function, changing nothing |
| `SessionStores.InMemorySessionStore.CreateSession` | crates/vaultx-broker/src/session.rs:612-654 | new state and answer are those of `Create` |
| `SessionStores.InMemorySessionStore.RevokeSession` | crates/vaultx-broker/src/session.rs:574-582 | new state and answer are those of `Revoke` |
| `SessionStores.InMemorySessionStore.DelegateSession` | crates/vaultx-broker/src/session.rs:658-727 | new state and answer are those of `Delegate` |
| `SessionStores.InMemorySessionStore.Consume` | crates/vaultx-broker/src/session.rs:733-771 | new state and answer are those of `ConsumeBudget` |
| `SessionStores.VerifyDelegationChains` | crates/vaultx-broker/src/session.rs:1591-1635 | the two loops compute the first objection of the checker |
| `SessionStores.FileSessionStore.Snapshot` | crates/vaultx-broker/src/session.rs:1764-1768 | the records written list exactly the stored sessions |
| `SessionStores.FileSessionStore.WithLocked` | crates/vaultx-broker/src/session.rs:1736-1761 | a locked call refuses an unaccepted file untouched, else answers as the in-memory operation on the loaded store and writes only after a mutation |
| `SessionStores.LockedStepIsLockedApply` | crates/vaultx-broker/src/session.rs:1736-1761 | on any file that lists a store with the invariant, a locked call answers and leaves the file as the pipeline's store functions say: refused without change when the file cannot be had or budgets do not nest, otherwise as in memory |
| `SessionStores.InstancesActAsOneStore` | crates/vaultx-broker/src/session.rs:1811-1872 | for every interleaving of calls by any number of instances, starting from no file or from any file that lists a store with the invariant, each answer is that of one in-memory store in lock order until budgets first stop nesting, and a refusal ever after |
| `SessionStores.RefusedByOneRefusedByAll` | crates/vaultx-broker/src/session.rs:1835-1847 | in every such run a token refused as revoked through one instance never validates through any instance later |
| `Replay.ReplayCache.Register` | crates/vaultx-broker/src/engine.rs:137-165 | keeps `order` exactly the (time, key) pairs of `entries` and the size within capacity, and does what `Registered` says |
| `Replay.ReplayCache.SweepExpired` | crates/vaultx-broker/src/engine.rs:188-197 | leaves exactly the unexpired entries, in both indexes |
| `Replay.ReplayCache.MakeRoom` | crates/vaultx-broker/src/engine.rs:159-162 | the eviction loop terminates and removes only oldest entries until one slot is free |
| `Replay.ReplayCache.EvictOldest` | crates/vaultx-broker/src/engine.rs:200-204 | removes one entry no other is older than, from both indexes |
| `Replay.CacheAnswersAsLedger` | crates/vaultx-broker/src/engine.rs:137-165 | under a nondecreasing clock, while fewer than `capacity` pairs are live at each new registration, every answer is that of a ledger that never forgets |
| `Replay.FullWindowForgets` | crates/vaultx-broker/src/engine.rs:159-162 | when a cache that agrees with the ledger holds a full window of live pairs, any new registration makes it forget a live one |
| `Replay.CacheAgreesIffWindowNeverFull` | crates/vaultx-broker/src/engine.rs:137-165 | under a nondecreasing clock the cache agrees with the ledger after every call of a run if and only if no new pair meets a full window of live ones |
| `Replay.RefusalsAreGenuine` | crates/vaultx-broker/src/engine.rs:137-165 | in any run, full window or not, a refused pair did pass earlier, less than a window before |
| `Replay.PassesAreAWindowApart` | crates/vaultx-broker/src/engine.rs:84-86 | under the same conditions a pair let through twice was let through at least a full window apart |
| `Replay.SizeStaysWithinCapacity` | crates/vaultx-broker/src/engine.rs:88-91 | the size never exceeds the capacity in any run |
| `Replay.SweepsAreAmortized` | crates/vaultx-broker/src/engine.rs:102-106 | the entries visited by all sweeps of any run are at most twice its fresh insertions |
| `Replay.GrowthIsBoundedByLive` | crates/vaultx-broker/src/engine.rs:102-106 | the cache never holds more than twice the pairs that were within the window at some earlier call, and one more |
| `Scrubber.ScrubSecretPatterns` | crates/vaultx-broker/src/engine.rs:336-373 | the index loop computes `Scrub` |
| `Scrubber.SpanIsLongestSecret` | crates/vaultx-broker/src/engine.rs:280-328 | the matchers find, at each position, the longest span of a secret shape stated without them, or none |
| `Scrubber.ScrubIsClean` | crates/vaultx-broker/src/engine.rs:264-373 | no rule matches at any position of the output |
| `Scrubber.ScrubIsIdempotent` | crates/vaultx-broker/src/engine.rs:336-373 | scrubbing twice equals scrubbing once |
| `Scrubber.ScrubNeverGrows` | crates/vaultx-broker/src/engine.rs:336-373 | the output is never longer than the input |
| `Scrubber.ScrubReplacesOnlySecrets` | crates/vaultx-broker/src/engine.rs:336-373 | the input has exactly one leftmost-longest reading as kept bytes and secrets, and the output is it with each secret replaced by the sentinel |
| `BoundedReason.TruncateReason` | crates/vaultx-broker/src/engine.rs:222-232 | the loop stops at the last character boundary within 256 bytes and gives what `Truncated` specifies |
| `BoundedReason.TruncatedIsLongestPrefix` | crates/vaultx-broker/src/engine.rs:222-232 | for any text the result is its longest whole-character prefix within 256 bytes, and the text itself if that fits |
| `BoundedReason.Utf8CharIsRfc3629` | crates/vaultx-broker/src/engine.rs:222-232 | the text encoding has the bit patterns, lengths and values of section 3 of RFC 3629 |
| `BoundedReason.BoundedDenialIsStored` | crates/vaultx-audit/src/event.rs:293-304 | a readable log accepts a denial carrying the bounded reason, and one carrying the whole text exactly if nothing was cut |
| `Pipeline.BehaviourKeepsInv` | crates/vaultx-broker/src/engine.rs:574-963 | the invariant tying sessions, budgets, runs, replay history and the bytes of the audit file holds at every point of every interleaving, from any session file with the invariant and any audit file, torn or not |
| `Pipeline.AuthenticationOutcome` | crates/vaultx-broker/src/engine.rs:594-642 | authentication passes exactly when the session file can be had and is accepted and the token is live; a dead token and everything else get their own refusals |
| `Pipeline.ScreeningOutcome` | crates/vaultx-broker/src/engine.rs:685-780 | screening passes exactly on a canonical destination that egress and policy allow and whose every dimension the session's constraints let through, and fixes it as the target; otherwise the first failed gate is the reason |
| `Pipeline.PaymentOutcome` | crates/vaultx-broker/src/engine.rs:781-831 | the budget step passes exactly when the session file can be had and is accepted and the token is live with an unspent or absent budget, and says which of these failed |
| `Pipeline.ResolutionOutcome` | crates/vaultx-broker/src/engine.rs:832-873 | a paid run is prepared exactly when resolution and injection report no failure, and refused with the reported one otherwise |
| `Pipeline.PaidRunPassedEveryStage` | crates/vaultx-broker/src/engine.rs:594-831 | in every interleaving a run that has paid had, in this order, authenticated on an accepted file with a live token, passed the replay guard, been screened with every gate open and its target built from that destination, and paid with something left |
| `Pipeline.SentRunPassedEveryStage` | crates/vaultx-broker/src/engine.rs:594-888 | a run that called transport did all that, and then had its credential resolved and injected without failure before the call |
| `Pipeline.AllowedCarriesTheExchange` | crates/vaultx-broker/src/engine.rs:888-963 | an Allow carries the status that came back from the run's transport call, and its body, scrubbed |
| `Pipeline.RefusalsNameTheirCause` | crates/vaultx-broker/src/engine.rs:594-939 | in every interleaving a run is refused only for a reason that holds at that moment: an unusable session file or an unknown token, a dead token, a spent budget, an earlier pass within the window, this run's own destination outside its delegation, or what the outside parts answered in that step |
| `Pipeline.BudgetCheckFailsIff` | crates/vaultx-broker/src/engine.rs:814-830 | in every interleaving the budget step answers `budget_check_failed` if and only if the session file cannot be had or its budgets do not nest |
| `Pipeline.RefusedFileStopsPayment` | crates/vaultx-broker/src/engine.rs:781-831 | once budgets stop nesting the session file never changes again, and no run that had not paid by then, arrived or not, ever pays or reaches transport |
| `Pipeline.FileIsRefusedOnlyByPayment` | crates/vaultx-broker/src/session.rs:733-771 | budgets stop nesting only when a run pays from a token one of whose children holds exactly as much |
| `Pipeline.DeniedRunLeavesNoEarlierEffect` | crates/vaultx-broker/src/engine.rs:574-888 | in every interleaving a run answered with a denial has spent budget exactly if its reason arises after the budget step, and has called transport exactly if the transport failed or the response was too large |
| `Pipeline.TransportsWithinMintedBudget` | crates/vaultx-broker/src/engine.rs:781-888 | in every interleaving with other runs, revocation and delegation, transport calls made with a budgeted token never exceed its minted budget |
| `Pipeline.MintedIsFixed` | crates/vaultx-broker/src/session.rs:658-727 | the minted budget a run is held to never changes |
| `Pipeline.DeadSessionNeverReachesTransport` | crates/vaultx-broker/src/engine.rs:781-831 | a run that has not paid when its session or any ancestor is dead never reaches transport |
| `Pipeline.PaymentNeedsLiveAuthority` | crates/vaultx-broker/src/engine.rs:748-831 | at the moment a run pays, the session file is accepted, a finite chain of live ancestors exists and every one of them admits its request |
| `Pipeline.RepeatsAreAWindowApart` | crates/vaultx-broker/src/engine.rs:657-683 | two paid runs of one token and request id registered at least the replay window apart |
| `Pipeline.FinishedRunIsAccountedFor` | crates/vaultx-broker/src/engine.rs:463-513 | a finished run made one audit append, and answers Allow or Deny exactly when the log was readable and the record synced; at most one record of it exists, present exactly when the log was readable and the record written, synced or not, and carrying the decision it had reached: Allow, a policy's reason up to the bound, or any other reason whole; Allow means the run paid, made one transport call, and its body is within the ceiling and clean |
| `Pipeline.UnsyncedRecordStays` | crates/vaultx-audit/src/jsonl.rs:190-198 | a sync that fails after the write: the run answers `audit_write_failed` and its record, with the decision it had reached, is in the log |
| `Pipeline.LogIsTornIff` | crates/vaultx-audit/src/jsonl.rs:190-198 | a readable log becomes unreadable exactly by an append cut short after at least one byte |
| `Pipeline.TornLogStopsAnswers` | crates/vaultx-audit/src/jsonl.rs:156-162 | once the log is torn it never changes again, and every run not answered by then, arrived or not, is answered `audit_write_failed` if at all |
| `AuditLog.JsonlAppendStore.LoadEvents` | crates/vaultx-audit/src/jsonl.rs:65-76 | the line loop computes `Load`, first damaged line reported |
| `AuditLog.JsonlAppendStore.AppendEvent` | crates/vaultx-audit/src/jsonl.rs:156-199 | on any disk, new file and answer are those of `AppendWith` |
| `AuditLog.JsonlAppendStore.VerifyStoredChain` | crates/vaultx-audit/src/jsonl.rs:209-237 | the loop with its expected link computes `VerifyChain` |
| `AuditLog.JsonlAppendStore.QueryEvents` | crates/vaultx-audit/src/jsonl.rs:239-260 | the short-circuiting loop computes `Query` |
| `AuditLog.VerifyIsChained` | crates/vaultx-audit/src/jsonl.rs:209-237 | verification succeeds if and only if sequences are contiguous from zero and each event names its predecessor's digest |
| `AuditLog.FirstBreakIsReported` | crates/vaultx-audit/src/jsonl.rs:209-237 | verification reports the first event out of place: by its own sequence when that is wrong or it is the first, otherwise by that of the event before it |
| `AuditLog.HeadDeterminesLog` | crates/vaultx-audit/src/jsonl.rs:201-237 | without digest collisions, two files that verify and report the same latest hash hold the same events |
| `AuditLog.EditIsReportedWhereMade` | crates/vaultx-audit/src/jsonl.rs:209-237 | rewriting one event, sequence and link kept, is reported at exactly that sequence unless it is the last, which goes unnoticed |
| `AuditLog.EditedFileIsReported` | crates/vaultx-audit/src/jsonl.rs:209-237 | the same for the file of any run of appends with one event rewritten |
| `AuditLog.RunRoundTrips` | crates/vaultx-audit/src/jsonl.rs:156-281 | every run of appends leaves a file that loads back as the log, verifies, reports its head and exports byte for byte |
| `AuditLog.ExportIsSelection` | crates/vaultx-audit/src/jsonl.rs:239-281 | after any run of appends an export holds the lines of the first matching events, up to its limit, byte for byte |
| `AuditLog.MatchesFilterIff` | crates/vaultx-audit/src/jsonl.rs:126-153 | an event matches exactly when every field the filter asks for is the one asked for |
| `AuditLog.AppendOnAnyDisk` | crates/vaultx-audit/src/jsonl.rs:156-199 | an append answers Ok exactly when the log is readable, the event within bounds and the record synced; its whole record is in the file exactly when it was at least written; a torn file is left as it is |
| `AuditLog.AnyDiskRoundTrips` | crates/vaultx-audit/src/jsonl.rs:156-237 | after any run of appends on any disk the file holds the recorded events, and loads back as them and verifies exactly when no write was cut |
| `AuditLog.AppendedEventFollowsLast` | crates/vaultx-audit/src/jsonl.rs:156-176 | on any readable file, chained or not, an appended event has the last one's sequence plus one and its digest, and the body it was given |
| `AuditLog.TornTailIsRefused` | crates/vaultx-audit/src/jsonl.rs:93-116 | after any nonempty strict prefix of a further record, append, latest hash, verify and unlimited query all refuse at that line and append changes nothing |
| `AuditLog.LimitedQueryIgnoresLaterDamage` | crates/vaultx-audit/src/jsonl.rs:239-260 | a met limit gives the first matches whatever bytes lie beyond |
| `AuditLog.UnmetQueryReachesDamage` | crates/vaultx-audit/src/jsonl.rs:239-260 | an unmet limit reports the torn line |
| `AuditUpload.Reconcile` | crates/vaultx-cli/src/remoting.rs:236-247 | the loop computes `ReconcileChunk` |
| `AuditUpload.ReconcileIsExact` | crates/vaultx-cli/src/remoting.rs:236-247 | exactly the events at rejected positions are skipped, with their reasons, and the rest count as accepted |
| `AuditUpload.ReportIsExact` | crates/vaultx-cli/src/remoting.rs:180-212 | over all its batches an upload reports exactly the delivered events the server rejected at their positions, with its reasons |
| `AuditUpload.ReportIsInOrder` | crates/vaultx-cli/src/remoting.rs:180-212 | and it reports them in the order of their sequences |
| `AuditUpload.Uploader.UploadPending` | crates/vaultx-cli/src/remoting.rs:163-212 | new watermark, submissions, deliveries and answer are those of `Upload` |
| `AuditUpload.UploadEffect` | crates/vaultx-cli/src/remoting.rs:163-212 | an upload submits and delivers prefixes of the pending events in order; on success all of them, with accepted plus skipped equal to their number and the watermark at the end; on failure the watermark stays |
| `AuditUpload.PendingIsFilter` | crates/vaultx-cli/src/remoting.rs:168-176 | the pending events are those past the watermark, one by one and in order, whatever the order of the log |
| `AuditUpload.WatermarkNeverFalls` | crates/vaultx-cli/src/remoting.rs:197-202 | whatever the order of the log, the watermark never falls, nor stays below the last event delivered |
| `AuditUpload.EveryRunIsCovered` | crates/vaultx-cli/src/remoting.rs:163-212 | over every run of appends and uploads everything up to the watermark was delivered; without failures each event was submitted and delivered once, in order |
| `AuditUpload.WatermarkIsHighestAcceptedIff` | crates/vaultx-cli/src/remoting.rs:159-212 | after a successful upload of something, the watermark is the highest accepted sequence if and only if the last position of the last chunk was not rejected |
| `AuditUpload.RejectedEventMovesWatermark` | crates/vaultx-cli/src/remoting.rs:159-212 | one rejected event: the upload succeeds, accepts nothing and moves the watermark past it |
| `AuditUpload.ResubmittedIffFailed` | crates/vaultx-cli/src/remoting.rs:159-212 | whatever the next upload meets and whatever is logged in between, it submits an event again if and only if the first upload failed |
| `AuditUpload.AcceptedIsResubmittedIff` | crates/vaultx-cli/src/remoting.rs:159-212 | the next upload submits an accepted event again if and only if the first one failed after an acceptance and every call of the next one before the chunk of the first accepted event is answered |
| `AuditUpload.SuccessfulRetryResendsAccepted` | crates/vaultx-cli/src/remoting.rs:159-212 | a next upload that succeeds sends an accepted event again if and only if the first one failed after at least one event was accepted |
| `AuditUpload.AcceptedPrefixIsResent` | crates/vaultx-cli/src/remoting.rs:159-212 | two chunks, the second call fails: whatever the retry meets, it submits an accepted event again |
| `LineFraming.ReadLineCapped` | crates/vaultx-broker/src/ipc.rs:835-879 | the server's answer is a function of the byte stream, whatever its chunks, and so is what is left unread after a complete line; the end of the stream, clean or within a line, leaves nothing; of what is left after an oversized line nothing is said, as it depends on the chunks |
| `LineFraming.CleanEndIff` | crates/vaultx-broker/src/ipc.rs:832-851 | a stream ends cleanly exactly when it holds nothing but carriage returns |
| `LineFraming.TerminatedLineOutcome` | crates/vaultx-broker/src/ipc.rs:835-879 | a terminated line is read, without its carriage returns, exactly when what is left is within the cap, and is oversized otherwise |
| `LineFraming.UnterminatedOutcome` | crates/vaultx-broker/src/ipc.rs:835-851 | a stream that ends without a newline is oversized, a clean end or cut mid-line, by what it holds besides carriage returns |
| `LineFraming.ReadResponseLine` | crates/vaultx-broker-client/src/lib.rs:391-431 | the client's reader gives the same lines and the same size violations as the server's on every stream |
| `LineFraming.AppendNonCr` | crates/vaultx-broker/src/ipc.rs:883-890 | appends the bytes without carriage returns |
| `LineFraming.DrainLines` | crates/vaultx-broker/src/ipc.rs:1001-1024 | over a whole connection, the lines and the final status depend on the byte stream alone |
| `LineFraming.PipelinedFramesAreRead` | crates/vaultx-broker/src/ipc.rs:819-834 | frames within the cap are read in order, before whatever follows them |
| `LineFraming.FramesRoundTrip` | crates/vaultx-broker/src/ipc.rs:893-909 | frames without CR or LF and within the cap come back exactly, then a clean end |
| `Connections.CountIsHolders` | crates/vaultx-broker/src/ipc.rs:683-727 | in every interleaving, spurious failures included, the counter is the number of live slots and never exceeds the limit |
| `Connections.RefusedOnlyAtLimit` | crates/vaultx-broker/src/ipc.rs:696-717 | a refused caller's call overlapped a moment when the limit was fully used |
| `Connections.UndisturbedCallerSucceeds` | crates/vaultx-broker/src/ipc.rs:696-727 | a caller below the limit that nobody disturbs gets a slot and can give it back |
| `QueryInjection.PercentEncodeQueryValue` | crates/vaultx-broker/src/inject.rs:378-388 | the loop computes `Encode` |
| `QueryInjection.PercentDecodeKey` | crates/vaultx-broker/src/inject.rs:420-439 | the loop computes `Decode` |
| `QueryInjection.EncodedByteIs` | crates/vaultx-broker/src/inject.rs:378-388 | unreserved bytes are written as they are, every other one as `%` and its two upper-case digits |
| `QueryInjection.DecodeOutcome` | crates/vaultx-broker/src/inject.rs:420-439 | a percent sign with two hexadecimal digits of either case stands for their byte, anything else for itself |
| `QueryInjection.DecodeInvertsEncode` | crates/vaultx-broker/src/inject.rs:378-439 | decoding recovers any byte string from its encoding, which holds no separator |
| `QueryInjection.DecodeFixesIffNoEscape` | crates/vaultx-broker/src/inject.rs:420-439 | decoding leaves a string unchanged exactly when no position starts a valid escape, and shortens it otherwise |
| `QueryInjection.UnreservedNameIsSafe` | crates/vaultx-broker/src/inject.rs:85-105 | names of unreserved characters (section 2.3 of RFC 3986) are safe |
| `QueryInjection.PermittedNameIsSafeIff` | crates/vaultx-broker/src/inject.rs:85-121 | of the names the validator permits, exactly those without an ampersand or a valid escape are safe |
| `QueryInjection.PermittedNamesCanBeUnsafe` | crates/vaultx-broker/src/inject.rs:85-121 | the permitted names `%61` and `a&b` read back as `a` and `b` |
| `QueryInjection.InjectionIsExact` | crates/vaultx-broker/src/inject.rs:390-454 | for a safe name the last segment carries the name and the secret, and before it stand, verbatim and in order, the old segments at exactly the positions whose key does not decode to the name, a lone empty one dropped |
| `QueryInjection.InjectedKeyReadsBackIffSafe` | crates/vaultx-broker/src/inject.rs:390-454 | for every query and secret, the injected segment's key decodes to the name if and only if the name is safe: no `&`, no `=`, no valid escape |

## Left out

- Sockets, TLS, file modes, lock files, temporary files, DNS and the HTTP client: input and output.
- SHA-256, base64, serde and URL canonicalization: parameters, or absent; a `#` in a parameter name, which would end the query in a URL, is outside the query-string model.
- Lossy UTF-8 conversion of decoded query keys: names are ASCII, so a replacement character never equals one.
- Damage that cuts the audit file inside a multi-byte character: the code reports a read error instead of a corrupt line, and refuses as well.
- Policy evaluation, header filtering and credential resolution: arbitrary inputs of the pipeline's steps.
- Response header redaction, request and correlation ids, and the fields of audit events beyond the run, the decision and the bounded denial reason, in the pipeline.
- Disk failures in the theorems about many instances on one session file; the pipeline has them.
- Sessions and audit records written by other processes while the pipeline runs, apart from session administration.
- Session files that never listed a store with the invariant, in the pipeline.
- `list_for_agent`, `replace_header` and the upload report's rendering: they would only add easy members.
- The connection handler's other reasons to stop reading (shutdown, idle timeout, an unparsable line).
- Integer width: sequence numbers, budgets and counts are unbounded except the saturating expiry.
- Constant-time comparison, zeroization and timeouts.
- The control plane, the command line, the TUI and the repository format.
