/** Uploading the audit log past a persisted watermark, chunk by chunk. */
module AuditUpload {
  import opened Text

  const AUDIT_UPLOAD_CHUNK := 1000

  /** The server's answer to one batch: a failed call, or the rejected positions with reasons. */
  datatype Reply = CallFailed | Received(rejected: map<nat, string>)

  datatype Report = Report(accepted: nat, skipped: seq<(nat, string)>)

  /**
   * The persisted watermark and, in order, every event of a batch the server answered and every event of a
   * batch that was submitted, answered or not.
   */
  datatype State = State(watermark: Option<nat>, delivered: seq<nat>, submitted: seq<nat>)

  // --- One chunk ----------------------------------------------------------------------------------------

  function SkippedFrom(sequences: seq<nat>, rejected: map<nat, string>, i: nat): (skipped: seq<(nat, string)>)
    requires i <= |sequences|
    ensures |skipped| <= |sequences| - i
    decreases |sequences| - i
  {
    if i == |sequences| then []
    else (if i in rejected then [(sequences[i], rejected[i])] else []) + SkippedFrom(sequences, rejected, i + 1)
  }

  function ReconcileChunk(sequences: seq<nat>, rejected: map<nat, string>): (report: Report)
    ensures report.accepted + |report.skipped| == |sequences|
  {
    var skipped := SkippedFrom(sequences, rejected, 0);
    Report(|sequences| - |skipped|, skipped)
  }

  method Reconcile(sequences: seq<nat>, rejected: map<nat, string>) returns (report: Report)
    ensures report == ReconcileChunk(sequences, rejected)
  {
    var skipped: seq<(nat, string)> := [];
    for index := 0 to |sequences|
      invariant SkippedFrom(sequences, rejected, 0) == skipped + SkippedFrom(sequences, rejected, index)
    {
      if index in rejected {
        skipped := skipped + [(sequences[index], rejected[index])];
      }
    }
    return Report(|sequences| - |skipped|, skipped);
  }

  lemma {:induction false} SkippedFromIs(sequences: seq<nat>, rejected: map<nat, string>, i: nat, entry: (nat, string))
    requires i <= |sequences|
    ensures entry in SkippedFrom(sequences, rejected, i) <==>
            exists k | i <= k < |sequences| :: k in rejected && entry == (sequences[k], rejected[k])
    decreases |sequences| - i
  {
    if i < |sequences| {
      SkippedFromIs(sequences, rejected, i + 1, entry);
      var later := SkippedFrom(sequences, rejected, i + 1);
      var here := i in rejected && entry == (sequences[i], rejected[i]);
      assert entry in SkippedFrom(sequences, rejected, i) <==> here || entry in later;
      if entry in later {
        var k :| i + 1 <= k < |sequences| && k in rejected && entry == (sequences[k], rejected[k]);
        assert i <= k;
      } else if k :| i <= k < |sequences| && k in rejected && entry == (sequences[k], rejected[k]) {
        assert k == i;
      }
    }
  }

  lemma {:induction false} SkippedFromCount(sequences: seq<nat>, rejected: map<nat, string>, i: nat)
    requires i <= |sequences|
    ensures |SkippedFrom(sequences, rejected, i)| == |set k | i <= k < |sequences| && k in rejected|
    decreases |sequences| - i
  {
    var here := set k | i <= k < |sequences| && k in rejected;
    if i < |sequences| {
      SkippedFromCount(sequences, rejected, i + 1);
      var later := set k | i + 1 <= k < |sequences| && k in rejected;
      assert here == later + if i in rejected then {i} else {};
    } else {
      assert here == {};
    }
  }

  /** Exactly the positions the server rejected are skipped, and the rest count as accepted. */
  lemma ReconcileIsExact(sequences: seq<nat>, rejected: map<nat, string>)
    ensures var report := ReconcileChunk(sequences, rejected);
            && (forall entry :: entry in report.skipped <==>
                  exists k | 0 <= k < |sequences| :: k in rejected && entry == (sequences[k], rejected[k]))
            && |report.skipped| == |set k | 0 <= k < |sequences| && k in rejected|
            && report.accepted + |report.skipped| == |sequences|
  {
    forall entry
      ensures entry in SkippedFrom(sequences, rejected, 0) <==>
              exists k | 0 <= k < |sequences| :: k in rejected && entry == (sequences[k], rejected[k])
    {
      SkippedFromIs(sequences, rejected, 0, entry);
    }
    SkippedFromCount(sequences, rejected, 0);
  }

  // --- One upload -----------------------------------------------------------------------------------------

  function Pending(log: seq<nat>, watermark: Option<nat>): seq<nat> {
    if log == [] then []
    else (if watermark.None? || log[0] > watermark.value then [log[0]] else []) + Pending(log[1..], watermark)
  }

  function Raise(watermark: Option<nat>, end: nat): Option<nat> {
    if watermark.Some? && watermark.value > end then watermark else Some(end)
  }

  /** How far the chunk loop got. */
  datatype Progress = Progress(
    delivered: seq<nat>, submitted: seq<nat>, report: Report, watermark: Option<nat>, complete: bool)

  function ChunkLength(pending: seq<nat>): nat {
    if |pending| < AUDIT_UPLOAD_CHUNK then |pending| else AUDIT_UPLOAD_CHUNK
  }

  function Combine(first: seq<nat>, report: Report, later: Progress): Progress {
    later.(delivered := first + later.delivered,
           submitted := first + later.submitted,
           report := Report(report.accepted + later.report.accepted, report.skipped + later.report.skipped))
  }

  /** `reply(i)` is the server's answer to the `i`-th batch; the first failed call ends the loop. */
  function Deliver(pending: seq<nat>, reply: nat -> Reply, i: nat, watermark: Option<nat>): Progress
    decreases |pending|
  {
    if pending == [] then Progress([], [], Report(0, []), watermark, true)
    else
      match reply(i)
      case CallFailed => Progress([], pending[..ChunkLength(pending)], Report(0, []), watermark, false)
      case Received(rejected) =>
        var n := ChunkLength(pending);
        Combine(pending[..n], ReconcileChunk(pending[..n], rejected),
          Deliver(pending[n..], reply, i + 1, Raise(watermark, pending[n - 1])))
  }

  /** The watermark is saved only after the last chunk; nothing pending means nothing is sent or saved. */
  function Upload(s: State, log: seq<nat>, reply: nat -> Reply, saved: bool): (State, Result<Report, ()>) {
    var pending := Pending(log, s.watermark);
    if pending == [] then (s, Ok(Report(0, [])))
    else
      var p := Deliver(pending, reply, 0, s.watermark);
      var ok := p.complete && saved;
      (State(if ok then p.watermark else s.watermark, s.delivered + p.delivered, s.submitted + p.submitted),
       if ok then Ok(p.report) else Err(()))
  }

  class Uploader {
    var watermark: Option<nat>
    var delivered: seq<nat>
    var submitted: seq<nat>

    ghost function Abstract(): State
      reads this
    {
      State(watermark, delivered, submitted)
    }

    constructor ()
      ensures Abstract() == State(None, [], [])
    {
      watermark, delivered, submitted := None, [], [];
    }

    /** The chunk loop. */
    method DeliverChunks(pending: seq<nat>, reply: nat -> Reply)
      returns (total: Report, mark: Option<nat>, complete: bool)
      modifies this`delivered, this`submitted
      ensures var p := Deliver(pending, reply, 0, watermark);
              && delivered == old(delivered) + p.delivered && submitted == old(submitted) + p.submitted
              && total == p.report && mark == p.watermark && complete == p.complete
    {
      hide ReconcileChunk, Raise, Combine;
      total, mark := Report(0, []), watermark;
      var rest, i := pending, 0;
      ghost var sent: seq<nat> := [];
      ghost var whole := Deliver(pending, reply, 0, watermark);
      CombineConcat([], total, [], total, whole);
      while rest != []
        invariant whole == Combine(sent, total, Deliver(rest, reply, i, mark))
        invariant delivered == old(delivered) + sent && submitted == old(submitted) + sent
        decreases |rest|
      {
        var n := ChunkLength(rest);
        var chunk, answer := rest[..n], reply(i);
        submitted := submitted + chunk;
        if answer.CallFailed? {
          CombineNothing(sent, total, chunk, mark, false);
          return total, mark, false;
        }
        delivered := delivered + chunk;
        var report := Reconcile(chunk, answer.rejected);
        ghost var later := Deliver(rest[n..], reply, i + 1, Raise(mark, rest[n - 1]));
        assert Deliver(rest, reply, i, mark) == Combine(chunk, report, later);
        CombineConcat(sent, total, chunk, report, later);
        sent, total := sent + chunk, Report(total.accepted + report.accepted, total.skipped + report.skipped);
        rest, i, mark := rest[n..], i + 1, Raise(mark, rest[n - 1]);
      }
      CombineNothing(sent, total, [], mark, true);
      return total, mark, true;
    }

    method UploadPending(log: seq<nat>, reply: nat -> Reply, saved: bool) returns (result: Result<Report, ()>)
      modifies this
      ensures (Abstract(), result) == Upload(old(Abstract()), log, reply, saved)
    {
      var pending := Pending(log, watermark);
      if pending == [] {
        return Ok(Report(0, []));
      }
      var total, mark, complete := DeliverChunks(pending, reply);
      if !complete || !saved {
        return Err(());
      }
      watermark := mark;
      return Ok(total);
    }
  }

  lemma CombineNothing(sent: seq<nat>, total: Report, failing: seq<nat>, mark: Option<nat>, complete: bool)
    ensures Combine(sent, total, Progress([], failing, Report(0, []), mark, complete)) ==
            Progress(sent, sent + failing, total, mark, complete)
  {
    assert sent + [] == sent && total.skipped + [] == total.skipped;
  }

  lemma CombineConcat(a: seq<nat>, ra: Report, b: seq<nat>, rb: Report, later: Progress)
    ensures Combine(a, ra, Combine(b, rb, later)) ==
            Combine(a + b, Report(ra.accepted + rb.accepted, ra.skipped + rb.skipped), later)
    ensures Combine([], Report(0, []), later) == later
  {
    assert a + (b + later.delivered) == a + b + later.delivered;
    assert a + (b + later.submitted) == a + b + later.submitted && [] + later.submitted == later.submitted;
    assert ra.skipped + (rb.skipped + later.report.skipped) == ra.skipped + rb.skipped + later.report.skipped;
    assert [] + later.delivered == later.delivered && [] + later.report.skipped == later.report.skipped;
  }

  predicate Increasing(s: seq<nat>) {
    forall i, j | 0 <= i < j < |s| :: s[i] < s[j]
  }

  /** What an upload delivers is a prefix of the pending events, all of it exactly when every call succeeds. */
  lemma {:induction false} DeliverIsPrefix(pending: seq<nat>, reply: nat -> Reply, i: nat, watermark: Option<nat>)
    ensures var p := Deliver(pending, reply, i, watermark);
            && p.delivered <= pending && p.submitted <= pending && (pending != [] ==> p.submitted != [])
            && (p.complete ==> p.delivered == p.submitted == pending)
            && p.report.accepted + |p.report.skipped| == |p.delivered|
    decreases |pending|
  {
    hide ReconcileChunk, Raise;
    if pending != [] && reply(i).Received? {
      var n := ChunkLength(pending);
      DeliverIsPrefix(pending[n..], reply, i + 1, Raise(watermark, pending[n - 1]));
      assert pending == pending[..n] + pending[n..];
    }
  }

  /** A complete upload of increasing sequences leaves the watermark at the last of them. */
  lemma {:induction false} DeliverWatermark(pending: seq<nat>, reply: nat -> Reply, i: nat, watermark: Option<nat>)
    requires Increasing(pending) && pending != [] && (watermark.Some? ==> watermark.value < pending[0])
    requires Deliver(pending, reply, i, watermark).complete
    ensures Deliver(pending, reply, i, watermark).watermark == Some(pending[|pending| - 1])
    decreases |pending|
  {
    hide ReconcileChunk;
    var n := ChunkLength(pending);
    var rest, mark := pending[n..], Raise(watermark, pending[n - 1]);
    assert watermark.Some? ==> watermark.value < pending[n - 1];
    if rest != [] {
      assert rest[0] == pending[n] && rest[|rest| - 1] == pending[|pending| - 1];
      DeliverWatermark(rest, reply, i + 1, mark);
    }
  }

  // --- Runs ---------------------------------------------------------------------------------------------------

  /** The sequences `lo`, …, `hi - 1`; a verified log holds those from zero. */
  function Range(lo: nat, hi: nat): (r: seq<nat>)
    requires lo <= hi
    ensures |r| == hi - lo && forall i | 0 <= i < |r| :: r[i] == lo + i
  {
    seq(hi - lo, i requires 0 <= i < hi - lo => lo + i)
  }

  function FirstPending(watermark: Option<nat>): nat {
    if watermark.None? then 0 else watermark.value + 1
  }

  lemma {:induction false} PendingOfRange(lo: nat, n: nat, watermark: Option<nat>)
    requires lo <= n
    ensures var first := FirstPending(watermark);
            Pending(Range(lo, n), watermark) ==
              if first >= n then [] else if first <= lo then Range(lo, n) else Range(first, n)
    decreases n - lo
  {
    hide Range;
    if lo < n {
      RangeTail(lo, n);
      PendingOfRange(lo + 1, n, watermark);
    }
  }

  lemma RangeTail(lo: nat, n: nat)
    requires lo < n
    ensures Range(lo, n)[1..] == Range(lo + 1, n) && Range(lo, n) == [lo] + Range(lo + 1, n)
  {
  }

  datatype Step = Logged(count: nat) | Uploaded(reply: nat -> Reply, saved: bool)

  datatype World = World(logged: nat, uploader: State)

  function Do(w: World, step: Step): World {
    match step
    case Logged(count) => w.(logged := w.logged + count)
    case Uploaded(reply, saved) => w.(uploader := Upload(w.uploader, Range(0, w.logged), reply, saved).0)
  }

  function After(w: World, steps: seq<Step>): World
    decreases |steps|
  {
    if steps == [] then w else After(Do(w, steps[0]), steps[1..])
  }

  const START := World(0, State(None, [], []))

  /** Everything up to the watermark was delivered, and nothing was that is not logged. */
  predicate Covered(w: World) {
    && FirstPending(w.uploader.watermark) <= w.logged
    && (forall i | 0 <= i < FirstPending(w.uploader.watermark) :: i in w.uploader.delivered)
    && (forall i | i in w.uploader.delivered :: i < w.logged)
  }

  /** Each event up to the watermark was submitted and delivered once, in order, and nothing else was. */
  predicate ExactlyOnce(w: World) {
    && FirstPending(w.uploader.watermark) <= w.logged
    && w.uploader.delivered == w.uploader.submitted == Range(0, FirstPending(w.uploader.watermark))
  }

  /** Delivering the sequences from the first pending one. */
  lemma DeliverRange(lo: nat, hi: nat, reply: nat -> Reply, watermark: Option<nat>)
    requires lo < hi && FirstPending(watermark) == lo
    ensures var p := Deliver(Range(lo, hi), reply, 0, watermark);
            && p.delivered <= Range(lo, hi) && [] != p.submitted <= Range(lo, hi)
            && p.report.accepted + |p.report.skipped| == |p.delivered|
            && (p.complete ==> p.delivered == p.submitted == Range(lo, hi) && p.watermark == Some(hi - 1))
  {
    hide Deliver;
    DeliverIsPrefix(Range(lo, hi), reply, 0, watermark);
    if Deliver(Range(lo, hi), reply, 0, watermark).complete {
      DeliverWatermark(Range(lo, hi), reply, 0, watermark);
    }
  }

  lemma DropPrefix(s: seq<nat>, t: seq<nat>)
    ensures s <= s + t && (s + t)[|s|..] == t && s + [] == s
  {
  }

  /** The effect of an upload on a contiguous log. */
  lemma UploadEffect(w: World, reply: nat -> Reply, saved: bool)
    requires FirstPending(w.uploader.watermark) <= w.logged
    ensures var first := FirstPending(w.uploader.watermark);
            var (s, result) := Upload(w.uploader, Range(0, w.logged), reply, saved);
            && w.uploader.delivered <= s.delivered
            && s.delivered[|w.uploader.delivered|..] <= Range(first, w.logged)
            && w.uploader.submitted <= s.submitted
            && s.submitted[|w.uploader.submitted|..] <= Range(first, w.logged)
            && (first < w.logged ==> s.submitted != w.uploader.submitted)
            && (if result.Ok? then
                  && FirstPending(s.watermark) == w.logged
                  && s.delivered == w.uploader.delivered + Range(first, w.logged)
                  && s.submitted == w.uploader.submitted + Range(first, w.logged)
                  && result.value.accepted + |result.value.skipped| == w.logged - first
                else s.watermark == w.uploader.watermark)
  {
    hide Deliver, Pending, Range;
    var first, before := FirstPending(w.uploader.watermark), w.uploader.delivered;
    PendingOfRange(0, w.logged, w.uploader.watermark);
    if first < w.logged {
      DeliverRange(first, w.logged, reply, w.uploader.watermark);
      var p := Deliver(Range(first, w.logged), reply, 0, w.uploader.watermark);
      DropPrefix(before, p.delivered);
      DropPrefix(w.uploader.submitted, p.submitted);
    } else {
      assert Range(first, w.logged) == [];
      DropPrefix(before, []);
      DropPrefix(w.uploader.submitted, []);
    }
  }

  predicate Succeeds(w: World, step: Step) {
    step.Uploaded? ==> Upload(w.uploader, Range(0, w.logged), step.reply, step.saved).1.Ok?
  }

  lemma StepKeepsCovered(w: World, step: Step)
    requires Covered(w)
    ensures Covered(Do(w, step))
    ensures ExactlyOnce(w) && Succeeds(w, step) ==> ExactlyOnce(Do(w, step))
  {
    if step.Uploaded? {
      UploadEffect(w, step.reply, step.saved);
      var first, w' := FirstPending(w.uploader.watermark), Do(w, step);
      var before, after := w.uploader.delivered, w'.uploader.delivered;
      var added := after[|before|..];
      assert after == before + added;
      forall i | i in added ensures i < w.logged {
        assert i in Range(first, w.logged);
      }
      if Succeeds(w, step) {
        forall i | first <= i < w.logged ensures i in after {
          assert Range(first, w.logged)[i - first] == i;
        }
      }
    }
  }

  predicate AllSucceed(w: World, steps: seq<Step>)
    decreases |steps|
  {
    steps != [] ==> Succeeds(w, steps[0]) && AllSucceed(Do(w, steps[0]), steps[1..])
  }

  lemma {:induction false} RunKeepsCovered(w: World, steps: seq<Step>)
    requires Covered(w)
    ensures Covered(After(w, steps))
    ensures ExactlyOnce(w) && AllSucceed(w, steps) ==> ExactlyOnce(After(w, steps))
    decreases |steps|
  {
    if steps != [] {
      StepKeepsCovered(w, steps[0]);
      RunKeepsCovered(Do(w, steps[0]), steps[1..]);
    }
  }

  /** Over every run of appends and uploads; exactly once and in order when no upload fails. */
  lemma EveryRunIsCovered(steps: seq<Step>)
    ensures Covered(After(START, steps))
    ensures AllSucceed(START, steps) ==> ExactlyOnce(After(START, steps))
  {
    RunKeepsCovered(START, steps);
  }

  // --- The documented watermark --------------------------------------------------------------------------

  /** The events of one chunk the server did not reject. */
  function AcceptedFrom(sequences: seq<nat>, rejected: map<nat, string>, i: nat): seq<nat>
    requires i <= |sequences|
    decreases |sequences| - i
  {
    if i == |sequences| then []
    else (if i in rejected then [] else [sequences[i]]) + AcceptedFrom(sequences, rejected, i + 1)
  }

  /** The events accepted before the first failed call. */
  function AcceptedOf(pending: seq<nat>, reply: nat -> Reply, i: nat): seq<nat>
    decreases |pending|
  {
    if pending == [] || reply(i).CallFailed? then []
    else
      var n := ChunkLength(pending);
      AcceptedFrom(pending[..n], reply(i).rejected, 0) + AcceptedOf(pending[n..], reply, i + 1)
  }

  lemma {:induction false} AcceptedFromIs(sequences: seq<nat>, rejected: map<nat, string>, i: nat, a: nat)
    requires i <= |sequences|
    ensures a in AcceptedFrom(sequences, rejected, i) <==>
            exists k | i <= k < |sequences| :: k !in rejected && a == sequences[k]
    ensures |AcceptedFrom(sequences, rejected, i)| == |sequences| - i - |SkippedFrom(sequences, rejected, i)|
    decreases |sequences| - i
  {
    if i < |sequences| {
      AcceptedFromIs(sequences, rejected, i + 1, a);
      var later := AcceptedFrom(sequences, rejected, i + 1);
      var here := i !in rejected && a == sequences[i];
      assert a in AcceptedFrom(sequences, rejected, i) <==> here || a in later;
      if a in later {
        var k :| i + 1 <= k < |sequences| && k !in rejected && a == sequences[k];
        assert i <= k;
      } else if k :| i <= k < |sequences| && k !in rejected && a == sequences[k] {
        assert k == i;
      }
    }
  }

  /** Accepted events are among the delivered ones, and the report counts them. */
  lemma {:induction false} AcceptedOfIs(pending: seq<nat>, reply: nat -> Reply, i: nat, watermark: Option<nat>)
    ensures var p := Deliver(pending, reply, i, watermark);
            && |AcceptedOf(pending, reply, i)| == p.report.accepted
            && forall a | a in AcceptedOf(pending, reply, i) :: a in p.delivered
    decreases |pending|
  {
    if pending != [] && reply(i).Received? {
      var n := ChunkLength(pending);
      var chunk, rejected := pending[..n], reply(i).rejected;
      AcceptedOfIs(pending[n..], reply, i + 1, Raise(watermark, pending[n - 1]));
      AcceptedFromIs(chunk, rejected, 0, 0);
      forall a | a in AcceptedFrom(chunk, rejected, 0) ensures a in chunk {
        AcceptedFromIs(chunk, rejected, 0, a);
      }
    }
  }

  /** The verdict on the last pending event: the last position of the last chunk. */
  predicate LastAccepted(count: nat, reply: nat -> Reply, i: nat)
    requires count > 0
  {
    var last := count - 1;
    var answer := reply(i + last / AUDIT_UPLOAD_CHUNK);
    answer.Received? && last % AUDIT_UPLOAD_CHUNK !in answer.rejected
  }

  lemma LastAcceptedStep(count: nat, reply: nat -> Reply, i: nat)
    requires count > 0
    ensures LastAccepted(count, reply, i) <==>
            if count <= AUDIT_UPLOAD_CHUNK then reply(i).Received? && count - 1 !in reply(i).rejected
            else LastAccepted(count - AUDIT_UPLOAD_CHUNK, reply, i + 1)
  {
    if count > AUDIT_UPLOAD_CHUNK {
      var last, before := count - 1, count - AUDIT_UPLOAD_CHUNK - 1;
      assert last / AUDIT_UPLOAD_CHUNK == before / AUDIT_UPLOAD_CHUNK + 1;
      assert last % AUDIT_UPLOAD_CHUNK == before % AUDIT_UPLOAD_CHUNK;
    }
  }

  lemma CompleteStep(pending: seq<nat>, reply: nat -> Reply, i: nat, watermark: Option<nat>)
    requires pending != [] && Deliver(pending, reply, i, watermark).complete
    ensures var n := ChunkLength(pending);
            && reply(i).Received?
            && Deliver(pending[n..], reply, i + 1, Raise(watermark, pending[n - 1])).complete
  {
    hide ReconcileChunk, Raise;
  }

  lemma {:induction false} LastIsAcceptedIff(pending: seq<nat>, reply: nat -> Reply, i: nat, watermark: Option<nat>)
    requires Increasing(pending) && pending != [] && Deliver(pending, reply, i, watermark).complete
    ensures pending[|pending| - 1] in AcceptedOf(pending, reply, i) <==> LastAccepted(|pending|, reply, i)
    decreases |pending|
  {
    hide LastAccepted, Deliver, Raise, AcceptedFrom, SkippedFrom;
    var n := ChunkLength(pending);
    CompleteStep(pending, reply, i, watermark);
    var chunk, rest, rejected := pending[..n], pending[n..], reply(i).rejected;
    var last := pending[|pending| - 1];
    LastAcceptedStep(|pending|, reply, i);
    AcceptedFromIs(chunk, rejected, 0, last);
    if rest == [] {
      assert chunk == pending;
      assert AcceptedOf(rest, reply, i + 1) == [];
    } else {
      LastIsAcceptedIff(rest, reply, i + 1, Raise(watermark, pending[n - 1]));
      assert rest[|rest| - 1] == last;
      assert last !in AcceptedFrom(chunk, rejected, 0);
    }
  }

  /** The documented meaning of the watermark. */
  predicate IsHighestOf(watermark: Option<nat>, accepted: seq<nat>) {
    watermark.Some? && watermark.value in accepted && forall a | a in accepted :: a <= watermark.value
  }

  /**
   * After a successful upload of something, the watermark is the highest accepted sequence exactly when the
   * server did not reject the last position of the last chunk.
   */
  lemma WatermarkIsHighestAcceptedIff(w: World, reply: nat -> Reply, saved: bool)
    requires FirstPending(w.uploader.watermark) < w.logged
    requires Upload(w.uploader, Range(0, w.logged), reply, saved).1.Ok?
    ensures var pending := Range(FirstPending(w.uploader.watermark), w.logged);
            IsHighestOf(Upload(w.uploader, Range(0, w.logged), reply, saved).0.watermark, AcceptedOf(pending, reply, 0))
            <==> LastAccepted(|pending|, reply, 0)
  {
    hide Upload, Deliver, AcceptedOf, LastAccepted;
    var mark := w.uploader.watermark;
    var pending := Range(FirstPending(mark), w.logged);
    UploadEffect(w, reply, saved);
    SuccessIsComplete(w, reply, saved);
    LastIsAcceptedIff(pending, reply, 0, mark);
    forall a | a in AcceptedOf(pending, reply, 0) ensures a <= pending[|pending| - 1] {
      FirstAcceptedIsLeast(pending, reply, 0, a);
    }
  }

  lemma SuccessIsComplete(w: World, reply: nat -> Reply, saved: bool)
    requires FirstPending(w.uploader.watermark) < w.logged
    requires Upload(w.uploader, Range(0, w.logged), reply, saved).1.Ok?
    ensures Deliver(Range(FirstPending(w.uploader.watermark), w.logged), reply, 0, w.uploader.watermark).complete
  {
    hide Deliver, Pending;
    PendingOfRange(0, w.logged, w.uploader.watermark);
  }

  /** One event, rejected: the upload succeeds, nothing was accepted, and the watermark moves past it. */
  lemma RejectedEventMovesWatermark()
    ensures var reply := (i: nat) => Received(map[0 := "rejected"]);
            var (s, result) := Upload(State(None, [], []), Range(0, 1), reply, true);
            && result.Ok? && result.value.accepted == 0 && s.watermark == Some(0)
            && AcceptedOf(Range(0, 1), reply, 0) == []
  {
    var reply := (i: nat) => Received(map[0 := "rejected"]);
    PendingOfRange(0, 1, None);
    var pending := Range(0, 1);
    assert pending == [0] && pending[..1] == [0] && pending[1..] == [];
    assert SkippedFrom([0], reply(0).rejected, 1) == [];
    assert AcceptedFrom([0], reply(0).rejected, 1) == [];
    assert Deliver([], reply, 1, Some(0)) == Progress([], [], Report(0, []), Some(0), true);
  }

  // --- Sending again --------------------------------------------------------------------------------------

  /** The state of the world when the next upload starts: the first one's outcome and `more` new events. */
  function NextWorld(w: World, reply: nat -> Reply, saved: bool, more: nat): World {
    World(w.logged + more, Upload(w.uploader, Range(0, w.logged), reply, saved).0)
  }

  /** The events of one upload the server answered. */
  function Sent(w: World, reply: nat -> Reply, saved: bool): (sent: seq<nat>)
    requires FirstPending(w.uploader.watermark) <= w.logged
    ensures sent <= Range(FirstPending(w.uploader.watermark), w.logged)
  {
    UploadEffect(w, reply, saved);
    Upload(w.uploader, Range(0, w.logged), reply, saved).0.delivered[|w.uploader.delivered|..]
  }

  /** The events one upload submits, those of a call that then fails included. */
  function Submitted(w: World, reply: nat -> Reply, saved: bool): (submitted: seq<nat>)
    requires FirstPending(w.uploader.watermark) <= w.logged
    ensures submitted <= Range(FirstPending(w.uploader.watermark), w.logged)
  {
    UploadEffect(w, reply, saved);
    Upload(w.uploader, Range(0, w.logged), reply, saved).0.submitted[|w.uploader.submitted|..]
  }

  lemma NextWorldIsCovered(w: World, reply: nat -> Reply, saved: bool, more: nat)
    requires FirstPending(w.uploader.watermark) <= w.logged
    ensures var w' := NextWorld(w, reply, saved, more);
            && FirstPending(w'.uploader.watermark) <= w'.logged
            && (if Upload(w.uploader, Range(0, w.logged), reply, saved).1.Ok?
                then FirstPending(w'.uploader.watermark) == w.logged
                else w'.uploader.watermark == w.uploader.watermark)
  {
    UploadEffect(w, reply, saved);
  }

  lemma {:induction false} RangePrefix(lo: nat, hi: nat, s: seq<nat>, i: nat)
    requires lo <= hi && s <= Range(lo, hi)
    ensures i in s <==> lo <= i < lo + |s|
  {
    assert forall k | 0 <= k < |s| :: s[k] == Range(lo, hi)[k] == lo + k;
    if lo <= i < lo + |s| {
      assert s[i - lo] == i;
    }
  }

  lemma SubmittedIsPrefix(w: World, reply: nat -> Reply, saved: bool)
    requires FirstPending(w.uploader.watermark) <= w.logged
    ensures var lo := FirstPending(w.uploader.watermark);
            && (forall i: nat :: i in Submitted(w, reply, saved) <==> lo <= i < lo + |Submitted(w, reply, saved)|)
            && lo + |Submitted(w, reply, saved)| <= w.logged
            && (Submitted(w, reply, saved) == [] <==> lo == w.logged)
  {
    UploadEffect(w, reply, saved);
    var lo := FirstPending(w.uploader.watermark);
    forall i: nat ensures i in Submitted(w, reply, saved) <==> lo <= i < lo + |Submitted(w, reply, saved)| {
      RangePrefix(lo, w.logged, Submitted(w, reply, saved), i);
    }
  }

  lemma FailedUploadHadSomething(w: World, reply: nat -> Reply, saved: bool)
    requires FirstPending(w.uploader.watermark) <= w.logged
    requires Upload(w.uploader, Range(0, w.logged), reply, saved).1.Err?
    ensures FirstPending(w.uploader.watermark) < w.logged
  {
    PendingOfRange(0, w.logged, w.uploader.watermark);
  }

  /**
   * Whatever the next upload meets and whatever is logged in between, it submits an event again exactly when
   * this one failed.
   */
  lemma ResubmittedIffFailed(
      w: World, reply: nat -> Reply, saved: bool, more: nat, reply': nat -> Reply, saved': bool)
    requires FirstPending(w.uploader.watermark) <= w.logged
    ensures var w' := NextWorld(w, reply, saved, more);
            && FirstPending(w'.uploader.watermark) <= w'.logged
            && ((exists i :: i in Submitted(w, reply, saved) && i in Submitted(w', reply', saved')) <==>
                Upload(w.uploader, Range(0, w.logged), reply, saved).1.Err?)
  {
    hide Upload, Submitted;
    NextWorldIsCovered(w, reply, saved, more);
    var w' := NextWorld(w, reply, saved, more);
    SubmittedIsPrefix(w, reply, saved);
    SubmittedIsPrefix(w', reply', saved');
    if Upload(w.uploader, Range(0, w.logged), reply, saved).1.Err? {
      FailedUploadHadSomething(w, reply, saved);
      var lo := FirstPending(w.uploader.watermark);
      assert lo in Submitted(w, reply, saved) && lo in Submitted(w', reply', saved');
    }
  }

  /** The accepted events of one upload. */
  function AcceptedIn(w: World, reply: nat -> Reply): seq<nat>
    requires FirstPending(w.uploader.watermark) <= w.logged
  {
    AcceptedOf(Range(FirstPending(w.uploader.watermark), w.logged), reply, 0)
  }

  lemma AcceptedWasSent(w: World, reply: nat -> Reply, saved: bool)
    requires FirstPending(w.uploader.watermark) <= w.logged
    ensures forall a | a in AcceptedIn(w, reply) :: a in Sent(w, reply, saved)
  {
    hide Deliver, Pending;
    var mark := w.uploader.watermark;
    PendingOfRange(0, w.logged, mark);
    var pending := Range(FirstPending(mark), w.logged);
    AcceptedOfIs(pending, reply, 0, mark);
    var p := Deliver(pending, reply, 0, mark);
    if pending != [] {
      assert (w.uploader.delivered + p.delivered)[|w.uploader.delivered|..] == p.delivered;
    }
  }

  /** Calls `i`, …, `i + count - 1` are answered. */
  predicate AllAnswered(reply: nat -> Reply, i: nat, count: nat)
    decreases count
  {
    count > 0 ==> reply(i).Received? && AllAnswered(reply, i + 1, count - 1)
  }

  /** A pending event is submitted exactly when every call before the one of its chunk is answered. */
  lemma {:induction false} SubmittedIff(pending: seq<nat>, reply: nat -> Reply, i: nat, watermark: Option<nat>, k: nat)
    requires k < |pending|
    ensures k < |Deliver(pending, reply, i, watermark).submitted| <==> AllAnswered(reply, i, k / AUDIT_UPLOAD_CHUNK)
    decreases |pending|
  {
    hide ReconcileChunk, Raise;
    var n := ChunkLength(pending);
    if reply(i).Received? && k >= AUDIT_UPLOAD_CHUNK {
      assert k / AUDIT_UPLOAD_CHUNK == (k - AUDIT_UPLOAD_CHUNK) / AUDIT_UPLOAD_CHUNK + 1;
      SubmittedIff(pending[n..], reply, i + 1, Raise(watermark, pending[n - 1]), k - AUDIT_UPLOAD_CHUNK);
    }
  }

  lemma EventIsSubmittedIff(w: World, reply: nat -> Reply, saved: bool, a: nat)
    requires FirstPending(w.uploader.watermark) <= a < w.logged
    ensures a in Submitted(w, reply, saved) <==>
            AllAnswered(reply, 0, (a - FirstPending(w.uploader.watermark)) / AUDIT_UPLOAD_CHUNK)
  {
    hide Deliver, Pending, AllAnswered;
    var mark := w.uploader.watermark;
    var lo := FirstPending(mark);
    SubmittedIsPrefix(w, reply, saved);
    PendingOfRange(0, w.logged, mark);
    SubmittedIff(Range(lo, w.logged), reply, 0, mark, a - lo);
    DropPrefix(w.uploader.submitted, Deliver(Range(lo, w.logged), reply, 0, mark).submitted);
  }

  lemma {:induction false} FirstAcceptedIsLeast(pending: seq<nat>, reply: nat -> Reply, i: nat, a: nat)
    requires Increasing(pending) && a in AcceptedOf(pending, reply, i)
    ensures AcceptedOf(pending, reply, i)[0] <= a && a in pending
    decreases |pending|
  {
    hide AcceptedFrom, SkippedFrom;
    var n := ChunkLength(pending);
    var chunk, rest, rejected := pending[..n], pending[n..], reply(i).rejected;
    FirstOfChunkIsLeast(chunk, rejected, 0);
    if a !in AcceptedFrom(chunk, rejected, 0) {
      FirstAcceptedIsLeast(rest, reply, i + 1, a);
      if AcceptedFrom(chunk, rejected, 0) != [] {
        var f := AcceptedFrom(chunk, rejected, 0)[0];
        assert f in AcceptedFrom(chunk, rejected, 0) && f in chunk[0..];
        var x, y :| 0 <= x < n && 0 <= y < |rest| && chunk[x] == f && rest[y] == a;
        assert pending[x] == f && pending[n + y] == a;
      }
    }
  }

  lemma {:induction false} FirstOfChunkIsLeast(sequences: seq<nat>, rejected: map<nat, string>, i: nat)
    requires Increasing(sequences) && i <= |sequences|
    ensures forall a | a in AcceptedFrom(sequences, rejected, i) ::
              a in sequences[i..] && AcceptedFrom(sequences, rejected, i)[0] <= a
    decreases |sequences| - i
  {
    if i < |sequences| {
      FirstOfChunkIsLeast(sequences, rejected, i + 1);
    }
  }

  /**
   * An accepted event is submitted again exactly when the upload failed after an acceptance and every call of
   * the next upload before the chunk of the first accepted event is answered.
   */
  lemma AcceptedIsResubmittedIff(
      w: World, reply: nat -> Reply, saved: bool, more: nat, reply': nat -> Reply, saved': bool)
    requires FirstPending(w.uploader.watermark) <= w.logged
    ensures var w', lo := NextWorld(w, reply, saved, more), FirstPending(w.uploader.watermark);
            var accepted := AcceptedIn(w, reply);
            && FirstPending(w'.uploader.watermark) <= w'.logged
            && (accepted != [] ==> lo <= accepted[0] < w.logged)
            && (forall a | a in accepted :: accepted[0] <= a)
            && ((exists a :: a in accepted && a in Submitted(w', reply', saved')) <==>
                && Upload(w.uploader, Range(0, w.logged), reply, saved).1.Err?
                && accepted != []
                && AllAnswered(reply', 0, (accepted[0] - lo) / AUDIT_UPLOAD_CHUNK))
  {
    hide Upload, Submitted, AllAnswered, AcceptedOf;
    NextWorldIsCovered(w, reply, saved, more);
    var w', lo, accepted := NextWorld(w, reply, saved, more), FirstPending(w.uploader.watermark), AcceptedIn(w, reply);
    forall a | a in accepted ensures lo <= accepted[0] <= a < w.logged {
      FirstAcceptedIsLeast(Range(lo, w.logged), reply, 0, a);
      FirstAcceptedIsLeast(Range(lo, w.logged), reply, 0, accepted[0]);
    }
    if accepted != [] {
      assert accepted[0] in accepted;
    }
    SubmittedIsPrefix(w', reply', saved');
    if Upload(w.uploader, Range(0, w.logged), reply, saved).1.Err? && accepted != [] {
      EventIsSubmittedIff(w', reply', saved', accepted[0]);
    }
  }

  /** A next upload that succeeds sends an accepted event again exactly when the first failed after one. */
  lemma SuccessfulRetryResendsAccepted(
      w: World, reply: nat -> Reply, saved: bool, more: nat, reply': nat -> Reply, saved': bool)
    requires FirstPending(w.uploader.watermark) <= w.logged
    requires var w' := NextWorld(w, reply, saved, more); Upload(w'.uploader, Range(0, w'.logged), reply', saved').1.Ok?
    ensures var w' := NextWorld(w, reply, saved, more);
            && FirstPending(w'.uploader.watermark) <= w'.logged
            && ((exists a :: a in AcceptedIn(w, reply) && a in Sent(w', reply', saved')) <==>
                Upload(w.uploader, Range(0, w.logged), reply, saved).1.Err? && AcceptedIn(w, reply) != [])
  {
    hide AcceptedOf;
    NextWorldIsCovered(w, reply, saved, more);
    AcceptedWasSent(w, reply, saved);
    var w', lo := NextWorld(w, reply, saved, more), FirstPending(w.uploader.watermark);
    UploadEffect(w', reply', saved');
    forall a | a in AcceptedIn(w, reply)
      ensures lo <= a < w.logged
      ensures a in Sent(w', reply', saved') <==> FirstPending(w'.uploader.watermark) <= a
    {
      RangePrefix(lo, w.logged, Sent(w, reply, saved), a);
      RangePrefix(FirstPending(w'.uploader.watermark), w'.logged, Sent(w', reply', saved'), a);
    }
    if AcceptedIn(w, reply) != [] {
      assert AcceptedIn(w, reply)[0] in AcceptedIn(w, reply);
    }
  }

  lemma SecondCallFails(pending: seq<nat>, reply: nat -> Reply, watermark: Option<nat>)
    requires |pending| > AUDIT_UPLOAD_CHUNK && reply(0) == Received(map[]) && reply(1) == CallFailed
    ensures !Deliver(pending, reply, 0, watermark).complete
    ensures pending[0] in AcceptedOf(pending, reply, 0)
  {
    hide ReconcileChunk, Raise, AcceptedFrom, SkippedFrom;
    var chunk, rest := pending[..AUDIT_UPLOAD_CHUNK], pending[AUDIT_UPLOAD_CHUNK..];
    assert !Deliver(rest, reply, 1, Raise(watermark, pending[AUDIT_UPLOAD_CHUNK - 1])).complete;
    AcceptedFromIs(chunk, map[], 0, chunk[0]);
  }

  /** Two chunks, the second call fails: whatever the retry meets, it submits the accepted first event again. */
  lemma AcceptedPrefixIsResent(retry: nat -> Reply, saved: bool)
    ensures var w := World(AUDIT_UPLOAD_CHUNK + 1, State(None, [], []));
            var reply := (i: nat) => if i == 0 then Received(map[]) else CallFailed;
            var w' := NextWorld(w, reply, true, 0);
            && Upload(w.uploader, Range(0, w.logged), reply, true).1.Err?
            && 0 in AcceptedIn(w, reply)
            && FirstPending(w'.uploader.watermark) <= w'.logged
            && 0 in Submitted(w', retry, saved)
  {
    hide Deliver, AcceptedOf, Pending;
    var w := World(AUDIT_UPLOAD_CHUNK + 1, State(None, [], []));
    var reply := (i: nat) => if i == 0 then Received(map[]) else CallFailed;
    var w' := NextWorld(w, reply, true, 0);
    PendingOfRange(0, w.logged, None);
    SecondCallFails(Range(0, w.logged), reply, None);
    NextWorldIsCovered(w, reply, true, 0);
    hide Submitted;
    SubmittedIsPrefix(w', retry, saved);
  }

  // --- The report --------------------------------------------------------------------------------------------

  /** The server rejected the event at position `k` of the upload with this reason. */
  predicate RejectedAt(reply: nat -> Reply, i: nat, k: nat, reason: string) {
    var answer, position := reply(i + k / AUDIT_UPLOAD_CHUNK), k % AUDIT_UPLOAD_CHUNK;
    answer.Received? && position in answer.rejected && answer.rejected[position] == reason
  }

  lemma RejectedInChunk(reply: nat -> Reply, i: nat, k: nat, reason: string)
    requires k < AUDIT_UPLOAD_CHUNK
    ensures RejectedAt(reply, i, k, reason) <==>
            reply(i).Received? && k in reply(i).rejected && reply(i).rejected[k] == reason
  {
  }

  lemma RejectedLater(reply: nat -> Reply, i: nat, k: nat, reason: string)
    ensures RejectedAt(reply, i, k + AUDIT_UPLOAD_CHUNK, reason) <==> RejectedAt(reply, i + 1, k, reason)
  {
    assert (k + AUDIT_UPLOAD_CHUNK) / AUDIT_UPLOAD_CHUNK == k / AUDIT_UPLOAD_CHUNK + 1;
    assert (k + AUDIT_UPLOAD_CHUNK) % AUDIT_UPLOAD_CHUNK == k % AUDIT_UPLOAD_CHUNK;
  }

  ghost predicate ReportedFrom(pending: seq<nat>, reply: nat -> Reply, i: nat, delivered: nat, entry: (nat, string))
    requires delivered <= |pending|
  {
    exists k | 0 <= k < delivered :: pending[k] == entry.0 && RejectedAt(reply, i, k, entry.1)
  }

  lemma ReportedSplits(pending: seq<nat>, reply: nat -> Reply, i: nat, delivered: nat, entry: (nat, string))
    requires pending != [] && reply(i).Received? && ChunkLength(pending) <= delivered <= |pending|
    ensures var n := ChunkLength(pending);
            ReportedFrom(pending, reply, i, delivered, entry) <==>
            || (exists k | 0 <= k < n ::
                  k in reply(i).rejected && entry == (pending[..n][k], reply(i).rejected[k]))
            || ReportedFrom(pending[n..], reply, i + 1, delivered - n, entry)
  {
    hide RejectedAt;
    var n := ChunkLength(pending);
    if ReportedFrom(pending, reply, i, delivered, entry) {
      var k :| 0 <= k < delivered && pending[k] == entry.0 && RejectedAt(reply, i, k, entry.1);
      if k < n {
        RejectedInChunk(reply, i, k, entry.1);
        assert entry == (pending[..n][k], reply(i).rejected[k]);
      } else {
        RejectedLater(reply, i, k - n, entry.1);
        assert pending[n..][k - n] == entry.0;
      }
    }
    if k :| 0 <= k < n && k in reply(i).rejected && entry == (pending[..n][k], reply(i).rejected[k]) {
      RejectedInChunk(reply, i, k, entry.1);
      assert pending[k] == entry.0;
    }
    if ReportedFrom(pending[n..], reply, i + 1, delivered - n, entry) {
      var k :| 0 <= k < delivered - n && pending[n..][k] == entry.0 && RejectedAt(reply, i + 1, k, entry.1);
      RejectedLater(reply, i, k, entry.1);
      assert pending[k + n] == entry.0;
    }
  }

  /** Over all its batches, an upload reports exactly the delivered events the server rejected, with its reasons. */
  lemma {:induction false} ReportIsExact(
      pending: seq<nat>, reply: nat -> Reply, i: nat, watermark: Option<nat>, entry: (nat, string))
    ensures var p := Deliver(pending, reply, i, watermark);
            && |p.delivered| <= |pending|
            && (entry in p.report.skipped <==> ReportedFrom(pending, reply, i, |p.delivered|, entry))
    decreases |pending|
  {
    hide ReportedFrom, Raise, SkippedFrom;
    if pending != [] && reply(i).Received? {
      var n, rejected := ChunkLength(pending), reply(i).rejected;
      var later := Deliver(pending[n..], reply, i + 1, Raise(watermark, pending[n - 1]));
      ReportIsExact(pending[n..], reply, i + 1, Raise(watermark, pending[n - 1]), entry);
      SkippedFromIs(pending[..n], rejected, 0, entry);
      ReportedSplits(pending, reply, i, n + |later.delivered|, entry);
    } else {
      NothingReported(pending, reply, i, entry);
    }
  }

  lemma NothingReported(pending: seq<nat>, reply: nat -> Reply, i: nat, entry: (nat, string))
    ensures !ReportedFrom(pending, reply, i, 0, entry)
  {
  }

  predicate InOrder(skipped: seq<(nat, string)>) {
    forall a, b | 0 <= a < b < |skipped| :: skipped[a].0 < skipped[b].0
  }

  lemma {:induction false} SkippedFromInOrder(sequences: seq<nat>, rejected: map<nat, string>, i: nat)
    requires Increasing(sequences) && i <= |sequences|
    ensures InOrder(SkippedFrom(sequences, rejected, i))
    decreases |sequences| - i
  {
    if i < |sequences| {
      SkippedFromInOrder(sequences, rejected, i + 1);
      forall entry | entry in SkippedFrom(sequences, rejected, i + 1) ensures sequences[i] < entry.0 {
        SkippedFromIs(sequences, rejected, i + 1, entry);
      }
    }
  }

  /** And it reports them in the order of their sequences. */
  lemma {:induction false} ReportIsInOrder(pending: seq<nat>, reply: nat -> Reply, i: nat, watermark: Option<nat>)
    requires Increasing(pending)
    ensures InOrder(Deliver(pending, reply, i, watermark).report.skipped)
    decreases |pending|
  {
    hide Raise, SkippedFrom;
    if pending != [] && reply(i).Received? {
      var n, rejected := ChunkLength(pending), reply(i).rejected;
      var chunk, rest, mark := pending[..n], pending[n..], Raise(watermark, pending[n - 1]);
      ReportIsInOrder(rest, reply, i + 1, mark);
      SkippedFromInOrder(chunk, rejected, 0);
      var first, later := SkippedFrom(chunk, rejected, 0), Deliver(rest, reply, i + 1, mark).report.skipped;
      forall a, b | a in first && b in later ensures a.0 < b.0 {
        SkippedFromIs(chunk, rejected, 0, a);
        ReportIsExact(rest, reply, i + 1, mark, b);
        ReportedIsPending(rest, reply, i + 1, |Deliver(rest, reply, i + 1, mark).delivered|, b);
      }
      AppendedInOrder(first, later);
    }
  }

  lemma ReportedIsPending(pending: seq<nat>, reply: nat -> Reply, i: nat, delivered: nat, entry: (nat, string))
    requires delivered <= |pending| && ReportedFrom(pending, reply, i, delivered, entry)
    ensures entry.0 in pending
  {
  }

  lemma AppendedInOrder(a: seq<(nat, string)>, b: seq<(nat, string)>)
    requires InOrder(a) && InOrder(b) && forall x, y | x in a && y in b :: x.0 < y.0
    ensures InOrder(a + b)
  {
  }

  // --- Logs in any order ---------------------------------------------------------------------------------------

  /** Whatever the order of the log, the watermark never falls, nor stays below the last event delivered. */
  lemma {:induction false} WatermarkNeverFalls(
      pending: seq<nat>, reply: nat -> Reply, i: nat, watermark: Option<nat>)
    ensures var p := Deliver(pending, reply, i, watermark);
            && (watermark.Some? ==> p.watermark.Some? && p.watermark.value >= watermark.value)
            && |p.delivered| <= |pending|
            && (p.delivered != [] ==>
                  p.watermark.Some? && p.watermark.value >= pending[|p.delivered| - 1])
    decreases |pending|
  {
    hide ReconcileChunk;
    if pending != [] && reply(i).Received? {
      var n := ChunkLength(pending);
      WatermarkNeverFalls(pending[n..], reply, i + 1, Raise(watermark, pending[n - 1]));
    }
  }

  lemma ConcatAssoc(a: seq<nat>, b: seq<nat>, c: seq<nat>)
    ensures a + (b + c) == a + b + c && [] + c == c && a + [] == a
  {
  }

  function PastWatermark(e: nat, watermark: Option<nat>): seq<nat> {
    if watermark.Some? && e <= watermark.value then [] else [e]
  }

  lemma PendingStep(log: seq<nat>, watermark: Option<nat>)
    requires log != []
    ensures Pending(log, watermark) == PastWatermark(log[0], watermark) + Pending(log[1..], watermark)
  {
  }

  lemma {:induction false} PendingOfConcat(log: seq<nat>, more: seq<nat>, watermark: Option<nat>)
    ensures Pending(log + more, watermark) == Pending(log, watermark) + Pending(more, watermark)
    decreases |log|
  {
    if log == [] {
      ConcatAssoc([], [], Pending(more, watermark));
      assert log + more == more;
    } else {
      PendingOfConcat(log[1..], more, watermark);
      PendingStep(log, watermark);
      PendingStep(log + more, watermark);
      assert (log + more)[1..] == log[1..] + more;
      ConcatAssoc(PastWatermark(log[0], watermark), Pending(log[1..], watermark), Pending(more, watermark));
    }
  }

  lemma PendingOfOne(e: nat, watermark: Option<nat>)
    ensures Pending([e], watermark) == PastWatermark(e, watermark) && Pending([], watermark) == []
  {
    PendingStep([e], watermark);
    assert [e][1..] == [];
    ConcatAssoc(PastWatermark(e, watermark), [], []);
  }

  /** The pending events are those past the watermark, one by one and in order, whatever the order of the log. */
  lemma PendingIsFilter(before: seq<nat>, e: nat, after: seq<nat>, watermark: Option<nat>)
    ensures Pending(before + [e] + after, watermark) ==
            Pending(before, watermark) + (if watermark.Some? && e <= watermark.value then [] else [e])
            + Pending(after, watermark)
    ensures Pending([], watermark) == []
  {
    hide Pending;
    PendingOfOne(e, watermark);
    PendingOfConcat(before + [e], after, watermark);
    PendingOfConcat(before, [e], watermark);
  }
}
