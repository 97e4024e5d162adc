/** What a hand edit of one delegated record can gain while the load check still accepts the file. */
module HandEdits {
  import opened Text
  import opened PathGlob
  import opened Constraints
  import opened Sessions
  import opened LoadCheck

  predicate MatchesEveryPath(pattern: string) {
    ParseGlob(pattern) == Some(Glob([], true))
  }

  /** Constraints that turn away no request. */
  predicate Vacuous(c: SessionConstraints) {
    && c.credentials.None? && c.environments.None? && c.hosts.None? && c.methods.None?
    && (c.paths.Some? ==> exists p | p in c.paths.value :: MatchesEveryPath(p))
  }

  lemma {:induction false} LengthAbove(names: set<string>) returns (n: nat)
    ensures forall x | x in names :: |x| < n
  {
    if names == {} {
      n := 0;
    } else {
      var x :| x in names;
      var m := LengthAbove(names - {x});
      n := if |x| < m then m else |x| + 1;
    }
  }

  /** No finite set of names covers them all, in whatever case. */
  lemma NameOutside(names: set<string>) returns (name: string)
    ensures name !in names && forall n | n in names :: !EqIgnoreCase(n, name)
  {
    var n := LengthAbove(names);
    name := seq(n, _ => 'a');
    forall x | x in names ensures !EqIgnoreCase(x, name) {
      assert |Lower(x)| == |x| < n == |Lower(name)|;
    }
  }

  /** Only a pattern without fixed segments matches the empty path, and it matches all others too. */
  lemma EmptyPathDecides(pattern: string, path: string)
    ensures PathMatches(pattern, "") <==> MatchesEveryPath(pattern)
    ensures MatchesEveryPath(pattern) ==> PathMatches(pattern, path)
  {
    if ValidPattern(pattern) {
      ParsedGlobIsWellFormed(pattern);
      PathMatchesByGlob(pattern, "");
      PathMatchesByGlob(pattern, path);
      SplitPiece("", '/');
      var g := ParseGlob(pattern).value;
      if g.fixed != [] {
        assert !SegmentMatches(g.fixed[0], "");
      }
    }
  }

  lemma VacuousAdmitsAll(c: SessionConstraints, q: Request)
    requires Vacuous(c)
    ensures CheckRequest(c, q).Ok?
  {
    if c.paths.Some? {
      var p :| p in c.paths.value && MatchesEveryPath(p);
      EmptyPathDecides(p, q.path);
    }
  }

  /** A request that constraints turn away, unless they are vacuous. */
  lemma RequestOutside(c: SessionConstraints) returns (q: Request)
    requires !Vacuous(c)
    ensures CheckRequest(c, q).Err?
  {
    var credential := NameOutside(if c.credentials.Some? then c.credentials.value else {});
    var environment := NameOutside(if c.environments.Some? then c.environments.value else {});
    var host := NameOutside(if c.hosts.Some? then c.hosts.value else {});
    var verb := NameOutside(if c.methods.Some? then c.methods.value else {});
    q := Request(credential, environment, host, verb, "");
    if c.hosts.Some? {
      LowerTwice(host);
      assert forall h | h in c.hosts.value :: !EqIgnoreCase(h, Lower(host));
    }
    if c.paths.Some? {
      forall p | p in c.paths.value ensures PathMatches(p, "") <==> MatchesEveryPath(p) {
        EmptyPathDecides(p, "");
      }
    }
  }

  /** What minting proves of a child: it admits and may spend no more than its parent. */
  ghost predicate WithinAuthority(parent: Record, child: Record) {
    && (forall q :: Admits(child.constraints, q) ==> Admits(parent.constraints, q))
    && BudgetWithin(Budget(parent), Budget(child))
  }

  predicate Unrestricted(r: Record) {
    r.constraints.Some? ==> Vacuous(r.constraints.value) && r.constraints.value.remaining.None?
  }

  /** A record without constraints is within a parent's authority exactly when the parent restricts nothing. */
  lemma RootWithinIff(parent: Record, root: Record)
    requires root.constraints.None?
    ensures WithinAuthority(parent, root) <==> Unrestricted(parent)
  {
    if parent.constraints.Some? {
      var c := parent.constraints.value;
      if Vacuous(c) {
        forall q ensures CheckRequest(c, q).Ok? {
          VacuousAdmitsAll(c, q);
        }
      } else {
        var q := RequestOutside(c);
        assert Admits(root.constraints, q) && !Admits(parent.constraints, q);
      }
    }
  }

  lemma ListedSessionsAreLoaded(records: seq<Record>, st: Store)
    requires Lists(records, st) && forall id | id in st.sessions :: st.sessions[id].id == id
    ensures Load(records).sessions == st.sessions
  {
    LoadedRecordsAreListed(records);
    var loaded := Load(records).sessions;
    forall id | id in st.sessions ensures id in loaded {
      assert st.sessions[id] in records;
    }
    forall id | id in loaded ensures id in st.sessions && loaded[id] == st.sessions[id] {
      assert loaded[id] in records;
    }
  }

  /**
   * One delegated record of a written file is rewritten, its link kept or removed, and the file is still
   * accepted. Then the record is within the authority of the parent it was minted under exactly when the link
   * was kept or that parent restricts nothing.
   */
  lemma EditStaysWithinIff(st: Store, id: SessionId, edit: Record, records: seq<Record>)
    requires Indexed(st) && id in st.sessions && st.sessions[id].parent.Some?
    requires var p := st.sessions[id].parent; p.value in st.sessions && p.value != id && edit.parent in {None, p}
    requires edit.id == id && Lists(records, st.(sessions := st.sessions[id := edit])) && Accepted(records)
    ensures var p := st.sessions[id].parent;
            WithinAuthority(st.sessions[p.value], edit) <==> edit.parent == p || Unrestricted(st.sessions[p.value])
  {
    var edited, p := st.sessions[id := edit], st.sessions[id].parent;
    ListedSessionsAreLoaded(records, st.(sessions := edited));
    assert edited[id] in records && CheckRecord(edited, edit).None?;
    if edit.parent == p {
      forall q ensures Admits(edit.constraints, q) ==> Admits(st.sessions[p.value].constraints, q) {
        CheckedChildIsContained(edited, edit, q);
      }
      CheckedChildIsContained(edited, edit, Request("", "", "", "", ""));
    } else {
      RootWithinIff(st.sessions[p.value], edit);
    }
  }

  function Stripped(r: Record): Record {
    r.(parent := None, constraints := None)
  }

  /** Removing both halves of a link always passes the load check, and the token then validates and admits anything. */
  lemma StrippedLinkIsAccepted(st: Store, id: SessionId, records: seq<Record>, now: nat, q: Request)
    requires Inv(st) && BudgetsNested(st) && id in st.sessions
    requires Lists(records, st.(sessions := st.sessions[id := Stripped(st.sessions[id])]))
    ensures Accepted(records)
    ensures !IsDead(st.sessions[id], now) ==>
              Validate(Load(records), st.sessions[id].tokenHash, now) == Ok(Stripped(st.sessions[id]))
    ensures Admits(Stripped(st.sessions[id]).constraints, q) && Budget(Stripped(st.sessions[id])).None?
  {
    hide Linked, Lists, BudgetsNested, BudgetWithin, Budget;
    StrippingKeepsNested(st, id);
    var root := Stripped(st.sessions[id]);
    var st' := st.(sessions := st.sessions[id := root]);
    forall other | other in st'.sessions ensures Linked(st'.sessions, st'.sessions[other]) {
      StrippingKeepsLinked(st.sessions, id, st.sessions[other]);
    }
    ReloadAcceptedIffBudgetsNested(records, st');
  }

  lemma StrippingKeepsNested(st: Store, id: SessionId)
    requires BudgetsNested(st) && id in st.sessions
    ensures BudgetsNested(st.(sessions := st.sessions[id := Stripped(st.sessions[id])]))
    ensures Budget(Stripped(st.sessions[id])).None?
  {
  }

  lemma StrippingKeepsLinked(sessions: map<SessionId, Record>, id: SessionId, r: Record)
    requires id in sessions && Linked(sessions, r)
    ensures Linked(sessions[id := Stripped(sessions[id])], r) && Linked(sessions, Stripped(r))
    ensures Linked(sessions[id := Stripped(sessions[id])], Stripped(r))
  {
    hide ScopeWithin, ValidPaths, IsUnconstrained;
  }
}
