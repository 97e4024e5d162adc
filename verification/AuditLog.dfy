/** The hash-chained audit log, one JSON object per line of an append-only file. */
module AuditLog {
  import opened Text

  /** A denial reason is its UTF-8 bytes. */
  datatype Decision = Allow | Deny(reason: seq<nat>)

  const MAX_DENY_REASON_BYTES := 256

  predicate ValidDecision(d: Decision) {
    d.Deny? ==> |d.reason| <= MAX_DENY_REASON_BYTES
  }

  /** What the caller supplies; `details` stands for the fields no operation below inspects. */
  datatype NewEvent = NewEvent(
    correlation: string, actor: string, project: string, action: string, decision: Decision,
    credential: Option<string>, details: string)

  datatype Event = Event(id: string, sequence: nat, prevHash: Option<string>, body: NewEvent)

  datatype AuditError = CorruptRecord(line: nat) | ChainBroken(sequence: nat) | InvalidMetadata | Io

  /**
   * What the disk does to one append: nothing can be opened, some of the record's bytes but not all are written,
   * all are written and the sync fails, or all goes well.
   */
  datatype Disk = Unavailable | Cut(bytes: nat) | Unsynced | Synced

  /** The JSON codec and the event digest. */
  datatype Codec = Codec(encode: Event -> string, parse: string -> Option<Event>, digest: Event -> string)

  /** Parsing inverts encoding for events within the decision bound it re-checks; a record is nonempty, on one line. */
  ghost predicate Lawful(c: Codec) {
    forall e: Event ::
      && (ValidDecision(e.body.decision) ==> c.parse(c.encode(e)) == Some(e))
      && c.encode(e) != "" && '\n' !in c.encode(e)
  }

  ghost predicate CollisionFree(c: Codec) {
    forall a: Event, b: Event | c.digest(a) == c.digest(b) :: a == b
  }

  datatype Filter = Filter(
    actor: Option<string>, project: Option<string>, action: Option<string>, allow: Option<bool>,
    credential: Option<string>, correlation: Option<string>, limit: Option<nat>)

  const ANY := Filter(None, None, None, None, None, None, None)

  predicate MatchesFilter(f: Filter, e: Event) {
    && (f.actor.Some? ==> f.actor.value == e.body.actor)
    && (f.project.Some? ==> f.project.value == e.body.project)
    && (f.action.Some? ==> f.action.value == e.body.action)
    && (f.allow.Some? ==> f.allow.value == e.body.decision.Allow?)
    && (f.credential.Some? ==> e.body.credential == f.credential)
    && (f.correlation.Some? ==> f.correlation.value == e.body.correlation)
  }

  // --- What the operations compute -------------------------------------------------------------------

  /** Puts `events` in front of a successful result. */
  function Prepend(events: seq<Event>, part: Result<seq<Event>, AuditError>): Result<seq<Event>, AuditError> {
    if part.Err? then part else Ok(events + part.value)
  }

  lemma PrependConcat(a: seq<Event>, b: seq<Event>, part: Result<seq<Event>, AuditError>)
    ensures Prepend(a, Prepend(b, part)) == Prepend(a + b, part)
    ensures Prepend([], part) == part
  {
    if part.Ok? {
      assert a + (b + part.value) == (a + b) + part.value;
      assert [] + part.value == part.value;
    }
  }

  /** All records of `file`, whose first line has number `number + 1`; any damage is an error. */
  function LoadFrom(c: Codec, file: string, number: nat): Result<seq<Event>, AuditError>
    decreases |file|
  {
    if file == "" then Ok([])
    else
      var end := IndexOf(file, '\n');
      if end == |file| then Err(CorruptRecord(number + 1))
      else
        match c.parse(file[..end])
        case None => Err(CorruptRecord(number + 1))
        case Some(e) => Prepend([e], LoadFrom(c, file[end + 1..], number + 1))
  }

  /** A file that does not exist is an empty log. */
  function Contents(file: Option<string>): string {
    if file.None? then "" else file.value
  }

  function Load(c: Codec, file: Option<string>): Result<seq<Event>, AuditError> {
    LoadFrom(c, Contents(file), 0)
  }

  function HeadHash(c: Codec, events: seq<Event>): Option<string> {
    if events == [] then None else Some(c.digest(events[|events| - 1]))
  }

  function Link(c: Codec, events: seq<Event>, id: string, body: NewEvent): Event {
    Event(id, if events == [] then 0 else events[|events| - 1].sequence + 1, HeadHash(c, events), body)
  }

  /** What of a record reaches the file. */
  function Written(record: string, disk: Disk): string
    requires record != ""
  {
    if disk.Cut? then record[..if disk.bytes < |record| then disk.bytes else |record| - 1]
    else record
  }

  function AppendWith(c: Codec, file: Option<string>, id: string, body: NewEvent, disk: Disk)
    : (Option<string>, Result<Event, AuditError>)
  {
    if disk.Unavailable? then (file, Err(Io))
    else
      match Load(c, file)
      case Err(error) => (file, Err(error))
      case Ok(events) =>
        var stored := Link(c, events, id, body);
        if !ValidDecision(body.decision) then (file, Err(InvalidMetadata))
        else
          (Some(Contents(file) + Written(c.encode(stored) + "\n", disk)), if disk.Synced? then Ok(stored) else Err(Io))
  }

  /** An append the disk does not disturb. */
  function Append(c: Codec, file: Option<string>, id: string, body: NewEvent)
    : (Option<string>, Result<Event, AuditError>)
  {
    AppendWith(c, file, id, body, Synced)
  }

  function LatestHash(c: Codec, file: Option<string>): Result<Option<string>, AuditError> {
    match Load(c, file)
    case Err(error) => Err(error)
    case Ok(events) => Ok(HeadHash(c, events))
  }

  function VerifyFrom(c: Codec, events: seq<Event>, i: nat): Result<(), AuditError>
    requires i <= |events|
    decreases |events| - i
  {
    if i == |events| then Ok(())
    else if events[i].sequence != i then Err(ChainBroken(events[i].sequence))
    else if events[i].prevHash != HeadHash(c, events[..i]) then
      Err(ChainBroken(if i == 0 then events[i].sequence else events[i - 1].sequence))
    else VerifyFrom(c, events, i + 1)
  }

  function VerifyChain(c: Codec, file: Option<string>): Result<(), AuditError> {
    match Load(c, file)
    case Err(error) => Err(error)
    case Ok(events) => VerifyFrom(c, events, 0)
  }

  function Hit(f: Filter, e: Event): seq<Event> {
    if MatchesFilter(f, e) then [e] else []
  }

  /** How many more matches are wanted after `found` of them. */
  function Less(need: Option<nat>, found: nat): Option<nat>
    requires need.Some? ==> found <= need.value
  {
    if need.Some? then Some(need.value - found) else None
  }

  /** Stops as soon as `need` matches are found; `None` asks for all of them. */
  function QueryFrom(c: Codec, file: string, number: nat, f: Filter, need: Option<nat>): Result<seq<Event>, AuditError>
    requires need != Some(0)
    decreases |file|
  {
    if file == "" then Ok([])
    else
      var end := IndexOf(file, '\n');
      if end == |file| then Err(CorruptRecord(number + 1))
      else
        match c.parse(file[..end])
        case None => Err(CorruptRecord(number + 1))
        case Some(e) =>
          if MatchesFilter(f, e) && need == Some(1) then Ok([e])
          else Prepend(Hit(f, e), QueryFrom(c, file[end + 1..], number + 1, f, Less(need, |Hit(f, e)|)))
  }

  /** One line of a query. */
  lemma QueryLine(c: Codec, file: string, number: nat, f: Filter, need: Option<nat>)
    requires need != Some(0) && file != ""
    ensures var end := IndexOf(file, '\n');
            QueryFrom(c, file, number, f, need) ==
            if end == |file| || c.parse(file[..end]).None? then Err(CorruptRecord(number + 1))
            else
              var e := c.parse(file[..end]).value;
              if MatchesFilter(f, e) && need == Some(1) then Ok([e])
              else Prepend(Hit(f, e), QueryFrom(c, file[end + 1..], number + 1, f, Less(need, |Hit(f, e)|)))
  {
    hide IndexOf;
  }

  lemma QueryEnd(c: Codec, number: nat, f: Filter, need: Option<nat>)
    requires need != Some(0)
    ensures QueryFrom(c, "", number, f, need) == Ok([])
  {
  }

  function Query(c: Codec, file: Option<string>, f: Filter): Result<seq<Event>, AuditError> {
    if f.limit == Some(0) then Ok([]) else QueryFrom(c, Contents(file), 0, f, f.limit)
  }

  /** The lines of `events`, as the store writes them and as export writes them. */
  function Render(c: Codec, events: seq<Event>): string {
    if events == [] then "" else c.encode(events[0]) + "\n" + Render(c, events[1..])
  }

  function Export(c: Codec, file: Option<string>, f: Filter): Result<string, AuditError> {
    var found := Query(c, file, f);
    if found.Err? then Err(found.error) else Ok(Render(c, found.value))
  }

  // --- The store -------------------------------------------------------------------------------------

  class JsonlAppendStore {
    const codec: Codec
    var file: Option<string>

    constructor (codec: Codec)
      ensures this.codec == codec && file == None
    {
      this.codec, file := codec, None;
    }

    method LoadEvents() returns (result: Result<seq<Event>, AuditError>)
      ensures result == Load(codec, file)
    {
      hide Text.IndexOf;
      var rest, number, events := Contents(file), 0, [];
      PrependConcat([], [], LoadFrom(codec, rest, 0));
      while rest != ""
        invariant Load(codec, file) == Prepend(events, LoadFrom(codec, rest, number))
        decreases |rest|
      {
        var end := IndexOf(rest, '\n');
        if end == |rest| {
          return Err(CorruptRecord(number + 1));
        }
        var parsed := codec.parse(rest[..end]);
        if parsed.None? {
          return Err(CorruptRecord(number + 1));
        }
        PrependConcat(events, [parsed.value], LoadFrom(codec, rest[end + 1..], number + 1));
        events := events + [parsed.value];
        rest, number := rest[end + 1..], number + 1;
      }
      assert events + [] == events;
      return Ok(events);
    }

    method AppendEvent(id: string, body: NewEvent, disk: Disk) returns (result: Result<Event, AuditError>)
      modifies this
      ensures (file, result) == AppendWith(codec, old(file), id, body, disk)
    {
      if disk.Unavailable? {
        return Err(Io);
      }
      var loaded := LoadEvents();
      if loaded.Err? {
        return Err(loaded.error);
      }
      var stored := Link(codec, loaded.value, id, body);
      if !ValidDecision(body.decision) {
        return Err(InvalidMetadata);
      }
      file := Some(Contents(file) + Written(codec.encode(stored) + "\n", disk));
      if !disk.Synced? {
        return Err(Io);
      }
      return Ok(stored);
    }

    method VerifyStoredChain() returns (result: Result<(), AuditError>)
      ensures result == VerifyChain(codec, file)
    {
      var loaded := LoadEvents();
      if loaded.Err? {
        return Err(loaded.error);
      }
      var events := loaded.value;
      var expectedPrev: Option<string> := None;
      for i := 0 to |events|
        invariant expectedPrev == HeadHash(codec, events[..i])
        invariant VerifyFrom(codec, events, 0) == VerifyFrom(codec, events, i)
      {
        if events[i].sequence != i {
          return Err(ChainBroken(events[i].sequence));
        }
        if events[i].prevHash != expectedPrev {
          return Err(ChainBroken(if i == 0 then events[i].sequence else events[i - 1].sequence));
        }
        expectedPrev := Some(codec.digest(events[i]));
      }
      return Ok(());
    }

    method QueryEvents(f: Filter) returns (result: Result<seq<Event>, AuditError>)
      ensures result == Query(codec, file, f)
    {
      hide IndexOf, MatchesFilter, QueryFrom;
      var matched: seq<Event> := [];
      if f.limit == Some(0) {
        return Ok(matched);
      }
      var rest, number := Contents(file), 0;
      PrependConcat([], [], QueryFrom(codec, rest, 0, f, f.limit));
      while rest != ""
        invariant f.limit.Some? ==> |matched| < f.limit.value
        invariant Query(codec, file, f) == Prepend(matched, QueryFrom(codec, rest, number, f, Less(f.limit, |matched|)))
        decreases |rest|
      {
        QueryLine(codec, rest, number, f, Less(f.limit, |matched|));
        var end := IndexOf(rest, '\n');
        if end == |rest| {
          return Err(CorruptRecord(number + 1));
        }
        var parsed := codec.parse(rest[..end]);
        if parsed.None? {
          return Err(CorruptRecord(number + 1));
        }
        ghost var found := Hit(f, parsed.value);
        if !(MatchesFilter(f, parsed.value) && Less(f.limit, |matched|) == Some(1)) {
          PrependConcat(matched, found,
              QueryFrom(codec, rest[end + 1..], number + 1, f, Less(f.limit, |matched + found|)));
        }
        if MatchesFilter(f, parsed.value) {
          matched := matched + [parsed.value];
          if f.limit.Some? && |matched| >= f.limit.value {
            return Ok(matched);
          }
        }
        rest, number := rest[end + 1..], number + 1;
      }
      QueryEnd(codec, number, f, Less(f.limit, |matched|));
      assert matched + [] == matched;
      return Ok(matched);
    }
  }

  // --- The chain ---------------------------------------------------------------------------------------

  /** Contiguous from zero, and every event names the digest of the one before it. */
  predicate Chained(c: Codec, events: seq<Event>) {
    forall i | 0 <= i < |events| :: events[i].sequence == i && events[i].prevHash == HeadHash(c, events[..i])
  }

  lemma {:induction false} VerifySkipsSound(c: Codec, events: seq<Event>, i: nat, k: nat)
    requires i <= k <= |events| && Chained(c, events[..k])
    ensures VerifyFrom(c, events, i) == VerifyFrom(c, events, k)
    decreases k - i
  {
    if i < k {
      assert events[..k][i] == events[i] && events[..k][..i] == events[..i];
      VerifySkipsSound(c, events, i + 1, k);
    }
  }

  lemma {:induction false} VerifyAcceptsOnlyChained(c: Codec, events: seq<Event>, i: nat)
    requires i <= |events| && VerifyFrom(c, events, i).Ok?
    ensures forall k | i <= k < |events| :: events[k].sequence == k && events[k].prevHash == HeadHash(c, events[..k])
    decreases |events| - i
  {
    if i < |events| {
      VerifyAcceptsOnlyChained(c, events, i + 1);
    }
  }

  lemma VerifyIsChained(c: Codec, events: seq<Event>)
    ensures VerifyFrom(c, events, 0).Ok? <==> Chained(c, events)
  {
    if Chained(c, events) {
      assert events[..|events|] == events;
      VerifySkipsSound(c, events, 0, |events|);
    } else if VerifyFrom(c, events, 0).Ok? {
      VerifyAcceptsOnlyChained(c, events, 0);
      assert false;
    }
  }

  lemma {:induction false} EqualFromHeadDown(c: Codec, a: seq<Event>, b: seq<Event>, i: nat)
    requires CollisionFree(c) && Chained(c, a) && Chained(c, b) && |a| == |b| && i < |a|
    requires a[|a| - 1] == b[|b| - 1]
    ensures a[i] == b[i]
    decreases |a| - i
  {
    if i < |a| - 1 {
      EqualFromHeadDown(c, a, b, i + 1);
      assert Some(c.digest(a[i])) == a[i + 1].prevHash == b[i + 1].prevHash == Some(c.digest(b[i]));
    }
  }

  /** Two files that verify and report the same head hold the same log. */
  lemma HeadDeterminesLog(c: Codec, f: Option<string>, g: Option<string>)
    requires CollisionFree(c)
    requires VerifyChain(c, f).Ok? && VerifyChain(c, g).Ok?
    requires LatestHash(c, f) == LatestHash(c, g)
    ensures Load(c, f).Ok? && Load(c, f) == Load(c, g)
  {
    hide LoadFrom, VerifyFrom;
    var a, b := Load(c, f).value, Load(c, g).value;
    VerifyIsChained(c, a);
    VerifyIsChained(c, b);
    if a != [] && b != [] {
      assert a[|a| - 1] == b[|b| - 1];
      assert |a| - 1 == a[|a| - 1].sequence == b[|b| - 1].sequence == |b| - 1;
      forall i | 0 <= i < |a| ensures a[i] == b[i] {
        EqualFromHeadDown(c, a, b, i);
      }
      assert a == b;
    }
  }

  lemma EditKeepsFrontChained(c: Codec, events: seq<Event>, k: nat, edited: Event)
    requires Chained(c, events) && k < |events|
    requires edited.sequence == events[k].sequence && edited.prevHash == events[k].prevHash
    ensures Chained(c, events[k := edited][..k + 1])
  {
    hide HeadHash;
    var front := events[k := edited][..k + 1];
    forall i | 0 <= i < |front| ensures front[i].sequence == i && front[i].prevHash == HeadHash(c, front[..i]) {
      assert front[..i] == events[..i];
    }
  }

  /** Rewriting one event in place is reported at that event, exactly unless it is the head. */
  lemma EditIsReportedWhereMade(c: Codec, events: seq<Event>, k: nat, edited: Event)
    requires CollisionFree(c) && Chained(c, events) && k < |events|
    requires edited.sequence == events[k].sequence && edited.prevHash == events[k].prevHash && edited != events[k]
    ensures VerifyFrom(c, events[k := edited], 0) == if k == |events| - 1 then Ok(()) else Err(ChainBroken(k))
  {
    var e := events[k := edited];
    EditKeepsFrontChained(c, events, k, edited);
    VerifySkipsSound(c, e, 0, k + 1);
    if k + 1 < |events| {
      assert HeadHash(c, e[..k + 1]) == Some(c.digest(edited));
      assert events[k + 1].prevHash == HeadHash(c, events[..k + 1]) == Some(c.digest(events[k]));
    }
  }

  // --- Runs of appends ------------------------------------------------------------------------------------

  predicate AllValid(events: seq<Event>) {
    forall e | e in events :: ValidDecision(e.body.decision)
  }

  /** One well-formed record in front of anything. */
  lemma FirstRecord(c: Codec, e: Event, rest: string)
    requires Lawful(c) && ValidDecision(e.body.decision)
    ensures var file := c.encode(e) + "\n" + rest;
            var end := IndexOf(file, '\n');
            end < |file| && file[..end] == c.encode(e) && file[end + 1..] == rest && c.parse(file[..end]) == Some(e)
  {
    IndexOfFirst(c.encode(e), '\n', rest);
  }

  lemma LoadFirstRecord(c: Codec, e: Event, rest: string, number: nat)
    requires Lawful(c) && ValidDecision(e.body.decision)
    ensures LoadFrom(c, c.encode(e) + "\n" + rest, number) == Prepend([e], LoadFrom(c, rest, number + 1))
  {
    hide Text.IndexOf;
    FirstRecord(c, e, rest);
  }

  lemma {:induction false} LoadRendered(c: Codec, events: seq<Event>, rest: string, number: nat)
    requires Lawful(c) && AllValid(events)
    ensures LoadFrom(c, Render(c, events) + rest, number) ==
            Prepend(events, LoadFrom(c, rest, number + |events|))
    decreases |events|
  {
    hide LoadFrom, Prepend, Lawful;
    var part := LoadFrom(c, rest, number + |events|);
    if events == [] {
      assert Render(c, events) + rest == rest;
      PrependConcat([], [], part);
    } else {
      var tail := Render(c, events[1..]) + rest;
      LoadRendered(c, events[1..], rest, number + 1);
      assert number + 1 + |events[1..]| == number + |events|;
      assert LoadFrom(c, tail, number + 1) == Prepend(events[1..], part);
      PrependConcat([events[0]], events[1..], part);
      assert events == [events[0]] + events[1..];
      LoadFirstRecord(c, events[0], tail, number);
      RenderFirst(c, events, rest);
    }
  }

  lemma {:induction false} RenderSnoc(c: Codec, events: seq<Event>, e: Event)
    ensures Render(c, events + [e]) == Render(c, events) + c.encode(e) + "\n"
  {
    if events != [] {
      assert (events + [e])[1..] == events[1..] + [e];
      RenderSnoc(c, events[1..], e);
    } else {
      assert (events + [e])[1..] == [];
    }
  }

  datatype Entry = Entry(id: string, body: NewEvent)

  function FileAfter(c: Codec, file: Option<string>, entries: seq<Entry>): Option<string>
    decreases |entries|
  {
    if entries == [] then file else FileAfter(c, Append(c, file, entries[0].id, entries[0].body).0, entries[1..])
  }

  /** The log the caller intended: entries with an oversized reason are left out. */
  function LogAfter(c: Codec, events: seq<Event>, entries: seq<Entry>): seq<Event>
    decreases |entries|
  {
    if entries == [] then events
    else if !ValidDecision(entries[0].body.decision) then LogAfter(c, events, entries[1..])
    else LogAfter(c, events + [Link(c, events, entries[0].id, entries[0].body)], entries[1..])
  }

  lemma LoadExactly(c: Codec, events: seq<Event>)
    requires Lawful(c) && AllValid(events)
    ensures LoadFrom(c, Render(c, events), 0) == Ok(events)
  {
    LoadRendered(c, events, "", 0);
    assert Render(c, events) + "" == Render(c, events);
    assert events + [] == events;
  }

  lemma {:induction false} RunRendersLog(c: Codec, file: Option<string>, events: seq<Event>, entries: seq<Entry>)
    requires Lawful(c) && AllValid(events) && Chained(c, events) && Contents(file) == Render(c, events)
    ensures Contents(FileAfter(c, file, entries)) == Render(c, LogAfter(c, events, entries))
    ensures AllValid(LogAfter(c, events, entries)) && Chained(c, LogAfter(c, events, entries))
    decreases |entries|
  {
    if entries != [] {
      LoadExactly(c, events);
      var next := Append(c, file, entries[0].id, entries[0].body).0;
      if ValidDecision(entries[0].body.decision) {
        var stored := Link(c, events, entries[0].id, entries[0].body);
        RenderSnoc(c, events, stored);
        LinkKeepsChained(c, events, entries[0].id, entries[0].body);
        RunRendersLog(c, next, events + [stored], entries[1..]);
      } else {
        RunRendersLog(c, next, events, entries[1..]);
      }
    }
  }

  lemma QueryFirstRecord(c: Codec, e: Event, rest: string, number: nat, f: Filter, need: Option<nat>)
    requires Lawful(c) && ValidDecision(e.body.decision) && need != Some(0)
    ensures QueryFrom(c, c.encode(e) + "\n" + rest, number, f, need) ==
            if Hit(f, e) != [] && need == Some(1) then Ok([e])
            else Prepend(Hit(f, e), QueryFrom(c, rest, number + 1, f, Less(need, |Hit(f, e)|)))
  {
    hide Text.IndexOf;
    FirstRecord(c, e, rest);
  }

  lemma RenderFirst(c: Codec, events: seq<Event>, rest: string)
    requires events != []
    ensures Render(c, events) + rest == c.encode(events[0]) + "\n" + (Render(c, events[1..]) + rest)
  {
  }

  /** Enough matches: the query stops there. */
  lemma {:induction false} QueryStopsAtLimit(c: Codec, events: seq<Event>, rest: string, number: nat, f: Filter,
      need: nat)
    requires Lawful(c) && AllValid(events) && 0 < need <= |Select(f, events)|
    ensures QueryFrom(c, Render(c, events) + rest, number, f, Some(need)) == Ok(Select(f, events)[..need])
    decreases |events|
  {
    hide QueryFrom, MatchesFilter, Lawful, ValidDecision;
    var hit, later := Hit(f, events[0]), Select(f, events[1..]);
    RenderFirst(c, events, rest);
    QueryFirstRecord(c, events[0], Render(c, events[1..]) + rest, number, f, Some(need));
    if hit != [] && need == 1 {
      assert Select(f, events)[..1] == [events[0]];
    } else {
      QueryStopsAtLimit(c, events[1..], rest, number + 1, f, need - |hit|);
      assert Select(f, events)[..need] == hit + later[..need - |hit|];
    }
  }

  /** Too few matches: the query goes on into whatever follows. */
  lemma {:induction false} QueryGoesOn(c: Codec, events: seq<Event>, rest: string, number: nat, f: Filter,
      need: Option<nat>)
    requires Lawful(c) && AllValid(events) && (need.Some? ==> |Select(f, events)| < need.value)
    ensures QueryFrom(c, Render(c, events) + rest, number, f, need) ==
            Prepend(Select(f, events), QueryFrom(c, rest, number + |events|, f, Less(need, |Select(f, events)|)))
    decreases |events|
  {
    hide QueryFrom, MatchesFilter, Lawful, Prepend;
    var part := QueryFrom(c, rest, number + |events|, f, Less(need, |Select(f, events)|));
    if events == [] {
      assert Render(c, events) + rest == rest;
      PrependConcat([], [], part);
    } else {
      var hit, later, tail := Hit(f, events[0]), Select(f, events[1..]), Render(c, events[1..]) + rest;
      QueryGoesOn(c, events[1..], rest, number + 1, f, Less(need, |hit|));
      assert Less(Less(need, |hit|), |later|) == Less(need, |hit + later|);
      assert number + 1 + |events[1..]| == number + |events|;
      assert QueryFrom(c, tail, number + 1, f, Less(need, |hit|)) == Prepend(later, part);
      PrependConcat(hit, later, part);
      QueryGoesOnPastFirst(c, events[0], tail, number, f, need);
      RenderFirst(c, events, rest);
    }
  }

  lemma QueryGoesOnPastFirst(c: Codec, e: Event, rest: string, number: nat, f: Filter, need: Option<nat>)
    requires Lawful(c) && ValidDecision(e.body.decision) && (need.Some? ==> |Hit(f, e)| < need.value)
    ensures QueryFrom(c, c.encode(e) + "\n" + rest, number, f, need) ==
            Prepend(Hit(f, e), QueryFrom(c, rest, number + 1, f, Less(need, |Hit(f, e)|)))
  {
    QueryFirstRecord(c, e, rest, number, f, need);
  }

  /** The matching events in order. */
  function Select(f: Filter, events: seq<Event>): seq<Event> {
    if events == [] then []
    else Hit(f, events[0]) + Select(f, events[1..])
  }

  lemma {:induction false} SelectAny(events: seq<Event>)
    ensures Select(ANY, events) == events
  {
    if events != [] {
      SelectAny(events[1..]);
    }
  }

  lemma ExportExactly(c: Codec, file: Option<string>, events: seq<Event>)
    requires Lawful(c) && AllValid(events) && Contents(file) == Render(c, events)
    ensures Export(c, file, ANY) == Ok(Contents(file))
  {
    QueryGoesOn(c, events, "", 0, ANY, None);
    SelectAny(events);
    assert Render(c, events) + "" == Render(c, events);
    assert events + [] == events;
  }

  /** Every run of appends leaves a file that loads back as the log, verifies, and exports byte for byte. */
  lemma RunRoundTrips(c: Codec, entries: seq<Entry>)
    requires Lawful(c)
    ensures var file, log := FileAfter(c, None, entries), LogAfter(c, [], entries);
            && Load(c, file) == Ok(log)
            && VerifyChain(c, file).Ok?
            && LatestHash(c, file) == Ok(HeadHash(c, log))
            && Export(c, file, ANY) == Ok(Contents(file))
  {
    var file, log := FileAfter(c, None, entries), LogAfter(c, [], entries);
    RunRendersLog(c, None, [], entries);
    LoadExactly(c, log);
    ExportExactly(c, file, log);
    VerifyIsChained(c, log);
  }

  /** The same through the file: verifying a file with one event rewritten names it, unless it is the head. */
  lemma EditedFileIsReported(c: Codec, entries: seq<Entry>, k: nat, edited: Event)
    requires Lawful(c) && CollisionFree(c) && ValidDecision(edited.body.decision)
    requires k < |LogAfter(c, [], entries)|
    requires var original := LogAfter(c, [], entries)[k];
             edited.sequence == original.sequence && edited.prevHash == original.prevHash && edited != original
    ensures var log := LogAfter(c, [], entries);
            VerifyChain(c, Some(Render(c, log[k := edited]))) == if k == |log| - 1 then Ok(()) else Err(ChainBroken(k))
  {
    var log := LogAfter(c, [], entries);
    RunRendersLog(c, None, [], entries);
    assert AllValid(log[k := edited]);
    LoadExactly(c, log[k := edited]);
    EditIsReportedWhereMade(c, log, k, edited);
  }

  // --- A write cut by a crash --------------------------------------------------------------------------------

  /** A nonempty strict prefix of one more record. */
  ghost predicate TornRecord(c: Codec, torn: string) {
    torn != "" && exists e :: torn < c.encode(e) + "\n"
  }

  lemma TornRecordHasNoNewline(c: Codec, torn: string)
    requires Lawful(c) && TornRecord(c, torn)
    ensures IndexOf(torn, '\n') == |torn|
  {
    var e :| torn < c.encode(e) + "\n";
    assert torn == (c.encode(e) + "\n")[..|torn|] == c.encode(e)[..|torn|];
  }

  lemma TornRecordIsRefused(c: Codec, torn: string, number: nat, f: Filter, need: Option<nat>)
    requires Lawful(c) && TornRecord(c, torn) && need != Some(0)
    ensures LoadFrom(c, torn, number) == Err(CorruptRecord(number + 1))
    ensures QueryFrom(c, torn, number, f, need) == Err(CorruptRecord(number + 1))
  {
    TornRecordHasNoNewline(c, torn);
  }

  lemma UnreadableIsLeft(c: Codec, file: Option<string>, id: string, body: NewEvent)
    requires Load(c, file).Err?
    ensures Append(c, file, id, body) == (file, Err(Load(c, file).error))
  {
    hide LoadFrom;
  }

  /** Every reader that must see the whole file refuses it at the torn line, and append leaves it alone. */
  lemma TornTailIsRefused(c: Codec, entries: seq<Entry>, torn: string, id: string, body: NewEvent, f: Filter)
    requires Lawful(c) && TornRecord(c, torn) && f.limit.None?
    ensures var log := LogAfter(c, [], entries);
            var cut := Some(Contents(FileAfter(c, None, entries)) + torn);
            var refusal := CorruptRecord(|log| + 1);
            && Append(c, cut, id, body) == (cut, Err(refusal))
            && LatestHash(c, cut) == Err(refusal)
            && VerifyChain(c, cut) == Err(refusal)
            && Query(c, cut, f) == Err(refusal)
  {
    var log := LogAfter(c, [], entries);
    RunRendersLog(c, None, [], entries);
    hide LoadFrom, QueryFrom, TornRecord, Lawful, FileAfter, LogAfter, Render, AllValid, Chained, AppendWith;
    TornLoads(c, log, torn);
    TornQueries(c, log, torn, f);
    UnreadableIsLeft(c, Some(Contents(FileAfter(c, None, entries)) + torn), id, body);
  }

  lemma TornLoads(c: Codec, log: seq<Event>, torn: string)
    requires Lawful(c) && AllValid(log) && TornRecord(c, torn)
    ensures LoadFrom(c, Render(c, log) + torn, 0) == Err(CorruptRecord(|log| + 1))
  {
    hide LoadFrom, TornRecord, Lawful, AllValid, Render;
    TornRecordIsRefused(c, torn, |log|, ANY, None);
    LoadRendered(c, log, torn, 0);
  }

  lemma TornQueries(c: Codec, log: seq<Event>, torn: string, f: Filter)
    requires Lawful(c) && AllValid(log) && TornRecord(c, torn)
    requires f.limit.Some? ==> |Select(f, log)| < f.limit.value
    ensures QueryFrom(c, Render(c, log) + torn, 0, f, f.limit) == Err(CorruptRecord(|log| + 1))
  {
    hide QueryFrom, TornRecord, Lawful, AllValid, Render, Select;
    TornRecordIsRefused(c, torn, |log|, f, Less(f.limit, |Select(f, log)|));
    QueryGoesOn(c, log, torn, 0, f, f.limit);
  }

  /** A limited query is the first `limit` matches, whatever bytes lie beyond its cutoff. */
  lemma LimitedQueryIgnoresLaterDamage(c: Codec, entries: seq<Entry>, damage: string, f: Filter)
    requires Lawful(c) && f.limit.Some?
    requires |Select(f, LogAfter(c, [], entries))| >= f.limit.value
    ensures Query(c, Some(Contents(FileAfter(c, None, entries)) + damage), f)
            == Ok(Select(f, LogAfter(c, [], entries))[..f.limit.value])
  {
    var log := LogAfter(c, [], entries);
    RunRendersLog(c, None, [], entries);
    if f.limit.value > 0 {
      QueryStopsAtLimit(c, log, damage, 0, f, f.limit.value);
    }
  }

  /** Short of its limit, a query does reach the damage. */
  lemma UnmetQueryReachesDamage(c: Codec, entries: seq<Entry>, torn: string, f: Filter)
    requires Lawful(c) && TornRecord(c, torn) && f.limit.Some?
    requires |Select(f, LogAfter(c, [], entries))| < f.limit.value
    ensures Query(c, Some(Contents(FileAfter(c, None, entries)) + torn), f)
            == Err(CorruptRecord(|LogAfter(c, [], entries)| + 1))
  {
    RunRendersLog(c, None, [], entries);
    hide QueryFrom, TornRecord, Lawful, FileAfter, LogAfter, Render, AllValid, Chained, Select;
    TornQueries(c, LogAfter(c, [], entries), torn, f);
  }

  // --- Appends on a disk that may fail -----------------------------------------------------------------------

  /** The file holds the records of `events`, and after them nothing or a torn record. */
  ghost predicate Holds(c: Codec, file: Option<string>, events: seq<Event>) {
    && Render(c, events) <= Contents(file)
    && AllValid(events) && Chained(c, events)
    && (Intact(c, file, events) || TornRecord(c, Tail(c, file, events)))
  }

  function Tail(c: Codec, file: Option<string>, events: seq<Event>): string
    requires Render(c, events) <= Contents(file)
  {
    Contents(file)[|Render(c, events)|..]
  }

  predicate Intact(c: Codec, file: Option<string>, events: seq<Event>) {
    Contents(file) == Render(c, events)
  }

  /** The file can be read exactly when nothing is torn off at its end. */
  lemma LoadHeld(c: Codec, file: Option<string>, events: seq<Event>)
    requires Lawful(c) && Holds(c, file, events)
    ensures Load(c, file) == if Intact(c, file, events) then Ok(events) else Err(CorruptRecord(|events| + 1))
  {
    hide LoadFrom, Lawful, TornRecord, Chained, AllValid, Render;
    if Intact(c, file, events) {
      LoadExactly(c, events);
    } else {
      var torn := Tail(c, file, events);
      TornLoads(c, events, torn);
      assert Contents(file) == Render(c, events) + torn;
    }
  }

  /** The events whose whole record an append puts into the file. */
  function Recorded(c: Codec, events: seq<Event>, intact: bool, id: string, body: NewEvent, disk: Disk): seq<Event> {
    if intact && ValidDecision(body.decision) && (disk.Synced? || disk.Unsynced?) then [Link(c, events, id, body)]
    else []
  }

  lemma {:induction false} LinkKeepsChained(c: Codec, events: seq<Event>, id: string, body: NewEvent)
    requires Chained(c, events)
    ensures Chained(c, events + [Link(c, events, id, body)])
  {
    var longer := events + [Link(c, events, id, body)];
    forall i | 0 <= i < |longer| ensures longer[i].sequence == i && longer[i].prevHash == HeadHash(c, longer[..i]) {
      assert longer[..i] == events[..i];
      assert events[..|events|] == events;
    }
  }

  lemma WholeRecordIsHeld(c: Codec, file: Option<string>, events: seq<Event>, id: string, body: NewEvent)
    requires Lawful(c) && Holds(c, file, events) && Intact(c, file, events) && ValidDecision(body.decision)
    ensures var stored := Link(c, events, id, body);
            var file' := Some(Contents(file) + (c.encode(stored) + "\n"));
            Holds(c, file', events + [stored]) && Intact(c, file', events + [stored])
  {
    hide Chained;
    RenderSnoc(c, events, Link(c, events, id, body));
    LinkKeepsChained(c, events, id, body);
  }

  lemma CutRecordIsTorn(c: Codec, file: Option<string>, events: seq<Event>, e: Event, n: nat)
    requires Holds(c, file, events) && Intact(c, file, events) && c.encode(e) != ""
    ensures var file' := Some(Contents(file) + Written(c.encode(e) + "\n", Cut(n)));
            Holds(c, file', events) && (Intact(c, file', events) <==> n == 0)
  {
    hide Chained, AllValid, Render;
    var torn := Written(c.encode(e) + "\n", Cut(n));
    assert n > 0 ==> torn < c.encode(e) + "\n";
  }

  /**
   * One append on any disk. It answers Ok exactly when the log was readable, the event within bounds and the
   * record synced; the whole record is in the file exactly when it was also merely written; and a torn file is
   * left as it is.
   */
  lemma AppendOnAnyDisk(c: Codec, file: Option<string>, events: seq<Event>, id: string, body: NewEvent, disk: Disk)
    requires Lawful(c) && Holds(c, file, events)
    ensures var (file', result) := AppendWith(c, file, id, body, disk);
            var intact := Intact(c, file, events);
            var recorded := Recorded(c, events, intact, id, body, disk);
            && Holds(c, file', events + recorded)
            && (result.Ok? <==> intact && ValidDecision(body.decision) && disk.Synced?)
            && (result.Ok? ==> recorded == [result.value])
            && (!intact ==> file' == file)
            && (intact ==> (Intact(c, file', events + recorded) <==>
                            !(disk.Cut? && disk.bytes > 0 && ValidDecision(body.decision))))
  {
    hide Holds, Render;
    LoadHeld(c, file, events);
    assert events + [] == events;
    if Intact(c, file, events) && ValidDecision(body.decision) {
      var stored := Link(c, events, id, body);
      match disk
      case Cut(n) => CutRecordIsTorn(c, file, events, stored, n);
      case Unavailable =>
      case _ => WholeRecordIsHeld(c, file, events, id, body);
    }
  }

  datatype Attempt = Attempt(entry: Entry, disk: Disk)

  function FileOn(c: Codec, file: Option<string>, attempts: seq<Attempt>): Option<string>
    decreases |attempts|
  {
    if attempts == [] then file
    else
      var a := attempts[0];
      FileOn(c, AppendWith(c, file, a.entry.id, a.entry.body, a.disk).0, attempts[1..])
  }

  /** The events in the file after appends on a disk that may fail, and whether none of them was torn. */
  function LogOn(c: Codec, events: seq<Event>, intact: bool, attempts: seq<Attempt>): (seq<Event>, bool)
    decreases |attempts|
  {
    if attempts == [] then (events, intact)
    else
      var a := attempts[0];
      var torn := a.disk.Cut? && a.disk.bytes > 0 && ValidDecision(a.entry.body.decision);
      LogOn(c, events + Recorded(c, events, intact, a.entry.id, a.entry.body, a.disk), intact && !torn, attempts[1..])
  }

  /** After any run of appends on any disk, the log reads back and verifies, unless some write was cut. */
  lemma {:induction false} AnyDiskRoundTrips(
      c: Codec, file: Option<string>, events: seq<Event>, attempts: seq<Attempt>)
    requires Lawful(c) && Holds(c, file, events)
    ensures var file', (log, intact) := FileOn(c, file, attempts), LogOn(c, events, Intact(c, file, events), attempts);
            && Holds(c, file', log)
            && Load(c, file') == (if intact then Ok(log) else Err(CorruptRecord(|log| + 1)))
            && (VerifyChain(c, file').Ok? <==> intact)
    decreases |attempts|
  {
    hide Holds, Lawful, Render, Recorded, AppendWith, LoadFrom;
    if attempts == [] {
      LoadHeld(c, file, events);
      HeldIsChained(c, file, events);
      VerifyIsChained(c, events);
    } else {
      var a := attempts[0];
      AppendOnAnyDisk(c, file, events, a.entry.id, a.entry.body, a.disk);
      if !Intact(c, file, events) {
        TornStaysTorn(c, file, events, a.entry.id, a.entry.body, a.disk);
        assert events + [] == events;
      }
      AnyDiskRoundTrips(c, AppendWith(c, file, a.entry.id, a.entry.body, a.disk).0,
        events + Recorded(c, events, Intact(c, file, events), a.entry.id, a.entry.body, a.disk), attempts[1..]);
    }
  }

  lemma HeldIsChained(c: Codec, file: Option<string>, events: seq<Event>)
    requires Holds(c, file, events)
    ensures Chained(c, events)
  {
  }

  lemma TornStaysTorn(c: Codec, file: Option<string>, events: seq<Event>, id: string, body: NewEvent, disk: Disk)
    requires Lawful(c) && Holds(c, file, events) && !Intact(c, file, events)
    ensures AppendWith(c, file, id, body, disk).0 == file && AppendWith(c, file, id, body, disk).1.Err?
    ensures Recorded(c, events, Intact(c, file, events), id, body, disk) == []
  {
    LoadHeld(c, file, events);
  }

  // --- Filters -------------------------------------------------------------------------------------------------

  predicate Wants<T(==)>(want: Option<T>, have: T) {
    want == None || want == Some(have)
  }

  /** An event matches exactly when every field the filter asks for is the one asked for. */
  lemma MatchesFilterIff(f: Filter, e: Event)
    ensures MatchesFilter(f, e) <==>
            && Wants(f.actor, e.body.actor) && Wants(f.project, e.body.project) && Wants(f.action, e.body.action)
            && Wants(f.allow, e.body.decision.Allow?)
            && (f.credential == None || f.credential == e.body.credential)
            && Wants(f.correlation, e.body.correlation)
  {
  }

  /** After any run of appends, an export holds the lines of the first matching events, up to its limit. */
  lemma ExportIsSelection(c: Codec, entries: seq<Entry>, f: Filter)
    requires Lawful(c)
    ensures var selected := Select(f, LogAfter(c, [], entries));
            var n := if f.limit.Some? && f.limit.value < |selected| then f.limit.value else |selected|;
            Export(c, FileAfter(c, None, entries), f) == Ok(Render(c, selected[..n]))
  {
    var log := LogAfter(c, [], entries);
    RunRendersLog(c, None, [], entries);
    hide QueryFrom, Render, Select, FileAfter, LogAfter, Chained, MatchesFilter, Lawful;
    var selected := Select(f, log);
    assert Render(c, log) + "" == Render(c, log);
    if f.limit != Some(0) {
      if f.limit.Some? && f.limit.value <= |selected| {
        QueryStopsAtLimit(c, log, "", 0, f, f.limit.value);
      } else {
        QueryGoesOn(c, log, "", 0, f, f.limit);
        QueryEnd(c, |log|, f, Less(f.limit, |selected|));
        assert selected + [] == selected[..|selected|];
      }
    } else {
      assert selected[..0] == [];
    }
  }

  /** Whatever a readable file holds, an appended event continues from its last one, chain or no chain. */
  lemma AppendedEventFollowsLast(c: Codec, file: Option<string>, id: string, body: NewEvent)
    requires Append(c, file, id, body).1.Ok?
    ensures Load(c, file).Ok?
    ensures var events, stored := Load(c, file).value, Append(c, file, id, body).1.value;
            && stored.id == id && stored.body == body
            && (events == [] ==> stored.sequence == 0 && stored.prevHash == None)
            && (events != [] ==>
                  var last := events[|events| - 1];
                  stored.sequence == last.sequence + 1 && stored.prevHash == Some(c.digest(last)))
  {
  }

  /** Event `i` is in its place: its own sequence, and the digest of the event before it. */
  predicate InPlace(c: Codec, events: seq<Event>, i: nat)
    requires i < |events|
  {
    events[i].sequence == i && events[i].prevHash == if i == 0 then None else Some(c.digest(events[i - 1]))
  }

  /**
   * Verification reports the first event out of place: by its own sequence when that is wrong or it is the
   * first, otherwise by that of the event before it, whose content or link no longer agrees.
   */
  lemma FirstBreakIsReported(c: Codec, events: seq<Event>, k: nat)
    requires k < |events| && !InPlace(c, events, k) && forall i | 0 <= i < k :: InPlace(c, events, i)
    ensures VerifyFrom(c, events, 0) ==
            Err(ChainBroken(if events[k].sequence != k || k == 0 then events[k].sequence else k - 1))
  {
    forall i | 0 <= i < k
      ensures events[..k][i].sequence == i && events[..k][i].prevHash == HeadHash(c, events[..k][..i])
    {
      assert InPlace(c, events, i);
      assert events[..k][..i] == events[..i];
    }
    VerifySkipsSound(c, events, 0, k);
    assert k > 0 ==> InPlace(c, events, k - 1);
  }
}
