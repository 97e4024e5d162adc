/** When narrowing loses nothing: exactly which pairs of constraint sets admit together more than their narrowing. */
module NarrowExact {
  import opened Text
  import opened PathGlob
  import opened Constraints

  // --- The intersection of two globs is a glob, or empty ----------------------------------------------

  predicate Compatible(a: string, b: string) {
    a == "*" || b == "*" || a == b
  }

  predicate LengthsMeet(a: Glob, b: Glob) {
    && (!a.open ==> |b.fixed| <= |a.fixed|)
    && (!b.open ==> |a.fixed| <= |b.fixed|)
  }

  predicate Overlap(a: Glob, b: Glob) {
    LengthsMeet(a, b) && forall i | 0 <= i < |a.fixed| && i < |b.fixed| :: Compatible(a.fixed[i], b.fixed[i])
  }

  /** The more specific of the segments two globs have at a position at least one of them reaches. */
  function MeetSegment(a: Glob, b: Glob, i: nat): string
    requires i < |a.fixed| || i < |b.fixed|
  {
    if i >= |b.fixed| then a.fixed[i]
    else if i >= |a.fixed| || a.fixed[i] == "*" then b.fixed[i]
    else a.fixed[i]
  }

  function Longer(a: Glob, b: Glob): nat {
    if |a.fixed| >= |b.fixed| then |a.fixed| else |b.fixed|
  }

  function Meet(a: Glob, b: Glob): (g: Glob)
    ensures |g.fixed| == Longer(a, b)
    ensures forall i | 0 <= i < |g.fixed| :: g.fixed[i] == MeetSegment(a, b, i)
  {
    Glob(seq(Longer(a, b), i requires 0 <= i < Longer(a, b) => MeetSegment(a, b, i)), a.open && b.open)
  }

  lemma MeetSegmentMatches(a: Glob, b: Glob, i: nat, s: string)
    requires WellFormed(a) && WellFormed(b) && Overlap(a, b) && i < Longer(a, b)
    ensures SegmentMatches(MeetSegment(a, b, i), s) <==>
            (i < |a.fixed| ==> SegmentMatches(a.fixed[i], s)) && (i < |b.fixed| ==> SegmentMatches(b.fixed[i], s))
  {
    assert i < |a.fixed| && i < |b.fixed| ==> Compatible(a.fixed[i], b.fixed[i]);
  }

  /** Two globs match a path together exactly when they overlap and their meet matches it. */
  lemma MeetIsIntersection(a: Glob, b: Glob, path: seq<string>)
    requires WellFormed(a) && WellFormed(b)
    ensures GlobMatches(a, path) && GlobMatches(b, path) <==> Overlap(a, b) && GlobMatches(Meet(a, b), path)
  {
    if GlobMatches(a, path) && GlobMatches(b, path) {
      forall i | 0 <= i < |a.fixed| && i < |b.fixed| ensures Compatible(a.fixed[i], b.fixed[i]) {
        assert SegmentMatches(a.fixed[i], path[i]) && SegmentMatches(b.fixed[i], path[i]);
      }
      forall i | 0 <= i < Longer(a, b) ensures SegmentMatches(Meet(a, b).fixed[i], path[i]) {
        MeetSegmentMatches(a, b, i, path[i]);
      }
    }
    if Overlap(a, b) && GlobMatches(Meet(a, b), path) {
      forall i | 0 <= i < Longer(a, b)
        ensures i < |a.fixed| ==> SegmentMatches(a.fixed[i], path[i])
        ensures i < |b.fixed| ==> SegmentMatches(b.fixed[i], path[i])
      {
        assert SegmentMatches(Meet(a, b).fixed[i], path[i]);
        MeetSegmentMatches(a, b, i, path[i]);
      }
    }
  }

  lemma MeetIsWellFormed(a: Glob, b: Glob)
    requires WellFormed(a) && WellFormed(b) && Overlap(a, b)
    ensures WellFormed(Meet(a, b))
  {
  }

  // --- A path that speaks for a whole glob ----------------------------------------------------------------

  /** Every wildcard filled with `z`; an open glob goes on with one empty segment, which only `**` matches. */
  function Generic(g: Glob, z: string): (path: seq<string>)
    ensures |path| == |g.fixed| + if g.open then 1 else 0
    ensures forall i | 0 <= i < |g.fixed| :: path[i] == if g.fixed[i] == "*" then z else g.fixed[i]
    ensures g.open ==> path[|g.fixed|] == ""
  {
    seq(|g.fixed|, i requires 0 <= i < |g.fixed| => if g.fixed[i] == "*" then z else g.fixed[i])
    + if g.open then [""] else []
  }

  lemma GenericIsMatched(g: Glob, z: string)
    requires WellFormed(g) && z != ""
    ensures GlobMatches(g, Generic(g, z))
  {
  }

  /** A glob without the filler that matches the generic path covers the whole glob. */
  lemma GenericSpeaksForAll(c: Glob, g: Glob, z: string)
    requires WellFormed(c) && WellFormed(g) && z !in c.fixed && GlobMatches(c, Generic(g, z))
    ensures Covers(c, g)
  {
    var path := Generic(g, z);
    assert forall i | 0 <= i < |c.fixed| :: SegmentMatches(c.fixed[i], path[i]) && path[i] != "";
    assert |c.fixed| <= |g.fixed|;
    forall i | 0 <= i < |c.fixed| && i < |g.fixed| ensures c.fixed[i] == "*" || c.fixed[i] == g.fixed[i] {
      assert SegmentMatches(c.fixed[i], path[i]) && c.fixed[i] in c.fixed;
    }
  }

  lemma CoversIsSound(c: Glob, g: Glob, path: seq<string>)
    requires WellFormed(c) && WellFormed(g) && Covers(c, g) && GlobMatches(g, path)
    ensures GlobMatches(c, path)
  {
    forall i | 0 <= i < |c.fixed| ensures SegmentMatches(c.fixed[i], path[i]) {
      assert SegmentMatches(g.fixed[i], path[i]);
    }
  }

  // --- Paths --------------------------------------------------------------------------------------------------

  function GlobOf(pattern: string): Glob
    requires ValidPattern(pattern)
  {
    ParseGlob(pattern).value
  }

  predicate PatternsOverlap(a: string, b: string) {
    ValidPattern(a) && ValidPattern(b) && Overlap(GlobOf(a), GlobOf(b))
  }

  /** Some requested pattern that narrowing keeps covers all that `k` and `w` match together. */
  predicate MeetIsKept(kept: seq<string>, wanted: seq<string>, k: string, w: string)
    requires PatternsOverlap(k, w)
  {
    exists c | c in wanted :: Kept(kept, c) && ValidPattern(c) && Covers(GlobOf(c), Meet(GlobOf(k), GlobOf(w)))
  }

  predicate PathsLossless(parent: Option<seq<string>>, requested: Option<seq<string>>) {
    parent.Some? && requested.Some? ==>
      forall k, w | k in parent.value && w in requested.value && PatternsOverlap(k, w) ::
        MeetIsKept(parent.value, requested.value, k, w)
  }

  predicate PathsDisjoint(parent: Option<seq<string>>, requested: Option<seq<string>>) {
    if parent.Some? && requested.Some? then
      forall k, w | k in parent.value && w in requested.value :: !PatternsOverlap(k, w)
    else
      (parent.Some? && forall k | k in parent.value :: !ValidPattern(k))
      || (requested.Some? && forall w | w in requested.value :: !ValidPattern(w))
  }

  predicate AdmitsPath(paths: Option<seq<string>>, path: string) {
    paths.Some? ==> exists p | p in paths.value :: PathMatches(p, path)
  }

  /** A filler no pattern of the list uses as a segment. */
  lemma {:induction false} FreshSegment(patterns: seq<string>) returns (z: string)
    ensures z != "" && '/' !in z
    ensures forall p | p in patterns && ValidPattern(p) :: z !in GlobOf(p).fixed
  {
    var n := LongestPattern(patterns);
    z := seq(n + 1, _ => 'a');
    forall p | p in patterns && ValidPattern(p) ensures z !in GlobOf(p).fixed {
      LongestBounds(patterns, p);
      SegmentsAreShort(p[1..], z);
    }
  }

  function LongestPattern(patterns: seq<string>): nat {
    if patterns == [] then 0
    else
      var n := LongestPattern(patterns[1..]);
      if |patterns[0]| > n then |patterns[0]| else n
  }

  lemma {:induction false} LongestBounds(patterns: seq<string>, p: string)
    requires p in patterns
    ensures |p| <= LongestPattern(patterns)
  {
    if p != patterns[0] {
      LongestBounds(patterns[1..], p);
    }
  }

  lemma {:induction false} SegmentsAreShort(s: string, z: string)
    requires |z| > |s|
    ensures z !in Split(s, '/')
  {
    if s != "" {
      SegmentsAreShort(s[1..], z);
      var rest := Split(s[1..], '/');
      if s[0] != '/' {
        FirstPieceIsShort(s[1..]);
        assert |Extend(s[0], rest)[0]| <= |s|;
        assert Extend(s[0], rest)[1..] == rest[1..];
      }
    }
  }

  lemma {:induction false} FirstPieceIsShort(s: string)
    ensures |Split(s, '/')[0]| <= |s|
  {
    if s != "" {
      FirstPieceIsShort(s[1..]);
    }
  }

  /** The path of a glob's generic segments. */
  function GenericPath(g: Glob, z: string): string {
    "/" + Join(Generic(g, z), '/')
  }

  lemma GenericPathSegments(g: Glob, z: string)
    requires WellFormed(g) && '/' !in z
    ensures Segments(GenericPath(g, z)) == Generic(g, z)
  {
    var path := Generic(g, z);
    forall s | s in path ensures '/' !in s {
      var i :| 0 <= i < |path| && path[i] == s;
    }
    SegmentsOfPath(path);
  }

  /** Overlapping patterns match a path together. */
  lemma OverlapHasPath(k: string, w: string, z: string) returns (path: string)
    requires PatternsOverlap(k, w) && z != "" && '/' !in z
    ensures path == GenericPath(Meet(GlobOf(k), GlobOf(w)), z)
    ensures PathMatches(k, path) && PathMatches(w, path)
    ensures Segments(path) == Generic(Meet(GlobOf(k), GlobOf(w)), z)
  {
    var a, b := GlobOf(k), GlobOf(w);
    ParsedGlobIsWellFormed(k);
    ParsedGlobIsWellFormed(w);
    MeetIsWellFormed(a, b);
    path := GenericPath(Meet(a, b), z);
    GenericPathSegments(Meet(a, b), z);
    GenericIsMatched(Meet(a, b), z);
    MeetIsIntersection(a, b, Segments(path));
    PathMatchesByGlob(k, path);
    PathMatchesByGlob(w, path);
  }

  lemma CommonPathOverlaps(k: string, w: string, path: string)
    requires PathMatches(k, path) && PathMatches(w, path)
    ensures PatternsOverlap(k, w) && GlobMatches(Meet(GlobOf(k), GlobOf(w)), Segments(path))
  {
    ParsedGlobIsWellFormed(k);
    ParsedGlobIsWellFormed(w);
    PathMatchesByGlob(k, path);
    PathMatchesByGlob(w, path);
    MeetIsIntersection(GlobOf(k), GlobOf(w), Segments(path));
  }

  lemma LosslessPathsKeepCommon(parent: Option<seq<string>>, requested: Option<seq<string>>, path: string)
    requires PathsLossless(parent, requested) && AdmitsPath(parent, path) && AdmitsPath(requested, path)
    ensures AdmitsPath(NarrowPaths(parent, requested), path)
  {
    if parent.Some? && requested.Some? {
      var k :| k in parent.value && PathMatches(k, path);
      var w :| w in requested.value && PathMatches(w, path);
      CommonPathOverlaps(k, w, path);
      assert MeetIsKept(parent.value, requested.value, k, w);
      var g := Meet(GlobOf(k), GlobOf(w));
      var c :| c in requested.value && Kept(parent.value, c) && ValidPattern(c) && Covers(GlobOf(c), g);
      ParsedGlobIsWellFormed(k);
      ParsedGlobIsWellFormed(w);
      ParsedGlobIsWellFormed(c);
      MeetIsWellFormed(GlobOf(k), GlobOf(w));
      CoversIsSound(GlobOf(c), g, Segments(path));
      PathMatchesByGlob(c, path);
      assert c in NarrowPaths(parent, requested).value;
    }
  }

  /** A pair whose meet no kept pattern covers yields a path that is lost. */
  lemma LossyPathsLoseOne(parent: Option<seq<string>>, requested: Option<seq<string>>) returns (path: string)
    requires !PathsLossless(parent, requested)
    ensures AdmitsPath(parent, path) && AdmitsPath(requested, path)
    ensures !AdmitsPath(NarrowPaths(parent, requested), path)
  {
    var k, w :| k in parent.value && w in requested.value && PatternsOverlap(k, w)
                && !MeetIsKept(parent.value, requested.value, k, w);
    var z := FreshSegment(requested.value);
    path := OverlapHasPath(k, w, z);
    var g := Meet(GlobOf(k), GlobOf(w));
    ParsedGlobIsWellFormed(k);
    ParsedGlobIsWellFormed(w);
    MeetIsWellFormed(GlobOf(k), GlobOf(w));
    forall c | c in NarrowPaths(parent, requested).value ensures !PathMatches(c, path) {
      if PathMatches(c, path) {
        ParsedGlobIsWellFormed(c);
        PathMatchesByGlob(c, path);
        GenericSpeaksForAll(GlobOf(c), g, z);
        assert false;
      }
    }
  }

  lemma PatternHasPath(p: string) returns (path: string)
    requires ValidPattern(p)
    ensures PathMatches(p, path)
  {
    ParsedGlobIsWellFormed(p);
    path := GenericPath(GlobOf(p), "a");
    GenericPathSegments(GlobOf(p), "a");
    GenericIsMatched(GlobOf(p), "a");
    PathMatchesByGlob(p, path);
  }

  lemma DisjointPathsShareNone(parent: Option<seq<string>>, requested: Option<seq<string>>, path: string)
    requires PathsDisjoint(parent, requested)
    ensures !(AdmitsPath(parent, path) && AdmitsPath(requested, path))
  {
    if AdmitsPath(parent, path) && AdmitsPath(requested, path) && parent.Some? && requested.Some? {
      var k :| k in parent.value && PathMatches(k, path);
      var w :| w in requested.value && PathMatches(w, path);
      CommonPathOverlaps(k, w, path);
      assert false;
    }
  }

  lemma CommonPath(parent: Option<seq<string>>, requested: Option<seq<string>>) returns (path: string)
    requires !PathsDisjoint(parent, requested)
    ensures AdmitsPath(parent, path) && AdmitsPath(requested, path)
  {
    if parent.Some? && requested.Some? {
      var k, w :| k in parent.value && w in requested.value && PatternsOverlap(k, w);
      path := OverlapHasPath(k, w, "a");
    } else if parent.Some? {
      var k :| k in parent.value && ValidPattern(k);
      path := PatternHasPath(k);
    } else if requested.Some? {
      var w :| w in requested.value && ValidPattern(w);
      path := PatternHasPath(w);
    } else {
      path := "/";
    }
  }

  // --- Sets compared without case -----------------------------------------------------------------------------

  predicate AdmitsName(names: Option<set<string>>, name: string) {
    names.Some? ==> exists n | n in names.value :: EqIgnoreCase(n, name)
  }

  /** Names equal up to case have such a name in the literal intersection. */
  predicate NamesLossless(parent: Option<set<string>>, requested: Option<set<string>>) {
    parent.Some? && requested.Some? ==>
      forall a, b | a in parent.value && b in requested.value && EqIgnoreCase(a, b) ::
        exists c | c in parent.value * requested.value :: EqIgnoreCase(c, a)
  }

  predicate NamesDisjoint(parent: Option<set<string>>, requested: Option<set<string>>) {
    if parent.Some? && requested.Some? then
      forall a, b | a in parent.value && b in requested.value :: !EqIgnoreCase(a, b)
    else parent == Some({}) || requested == Some({})
  }

  lemma LosslessNamesKeepCommon(parent: Option<set<string>>, requested: Option<set<string>>, name: string)
    requires NamesLossless(parent, requested) && AdmitsName(parent, name) && AdmitsName(requested, name)
    ensures AdmitsName(NarrowSet(parent, requested), name)
  {
    hide Lower;
    if parent.Some? && requested.Some? {
      var a :| a in parent.value && EqIgnoreCase(a, name);
      var b :| b in requested.value && EqIgnoreCase(b, name);
      var c :| c in parent.value * requested.value && EqIgnoreCase(c, a);
    }
  }

  lemma LossyNamesLoseOne(parent: Option<set<string>>, requested: Option<set<string>>) returns (name: string)
    requires !NamesLossless(parent, requested)
    ensures AdmitsName(parent, name) && AdmitsName(requested, name) && !AdmitsName(NarrowSet(parent, requested), name)
  {
    var a, b :| a in parent.value && b in requested.value && EqIgnoreCase(a, b)
                && !exists c | c in parent.value * requested.value :: EqIgnoreCase(c, a);
    name := a;
    assert EqIgnoreCase(a, name) && EqIgnoreCase(b, name);
  }

  lemma CommonName(parent: Option<set<string>>, requested: Option<set<string>>) returns (name: string)
    requires !NamesDisjoint(parent, requested)
    ensures AdmitsName(parent, name) && AdmitsName(requested, name)
  {
    name := "";
    if parent.Some? && requested.Some? {
      var a, b :| a in parent.value && b in requested.value && EqIgnoreCase(a, b);
      name := a;
      assert EqIgnoreCase(a, name) && EqIgnoreCase(b, name);
    } else if parent.Some? {
      assert parent.value != {};
      name :| name in parent.value;
      assert EqIgnoreCase(name, name);
    } else if requested.Some? {
      assert requested.value != {};
      name :| name in requested.value;
      assert EqIgnoreCase(name, name);
    }
  }

  lemma DisjointNamesShareNone(parent: Option<set<string>>, requested: Option<set<string>>, name: string)
    requires NamesDisjoint(parent, requested)
    ensures !(AdmitsName(parent, name) && AdmitsName(requested, name))
  {
    if AdmitsName(parent, name) && AdmitsName(requested, name) && parent.Some? && requested.Some? {
      var a :| a in parent.value && EqIgnoreCase(a, name);
      var b :| b in requested.value && EqIgnoreCase(b, name);
      assert EqIgnoreCase(a, b);
      assert false;
    }
  }

  // --- All dimensions ---------------------------------------------------------------------------------------------

  predicate AdmitsExactly(values: Option<set<string>>, value: string) {
    values.Some? ==> value in values.value
  }

  /** Some dimension lets no request through both. */
  predicate JointlyEmpty(p: SessionConstraints, r: SessionConstraints) {
    || NarrowSet(p.credentials, r.credentials) == Some({})
    || NarrowSet(p.environments, r.environments) == Some({})
    || NamesDisjoint(p.hosts, r.hosts)
    || NamesDisjoint(p.methods, r.methods)
    || PathsDisjoint(p.paths, r.paths)
  }

  /** What a caller can evaluate before delegating: narrowing will refuse nothing both sides admit. */
  predicate NarrowLossless(p: SessionConstraints, r: SessionConstraints) {
    || JointlyEmpty(p, r)
    || (NamesLossless(p.hosts, r.hosts) && NamesLossless(p.methods, r.methods) && PathsLossless(p.paths, r.paths))
  }

  ghost predicate NarrowAdmitsAllCommon(p: SessionConstraints, r: SessionConstraints) {
    forall q :: CheckRequest(p, q).Ok? && CheckRequest(r, q).Ok? ==> CheckRequest(Narrow(p, r), q).Ok?
  }

  lemma AdmitsNameButForCase(names: Option<set<string>>, name: string)
    ensures AdmitsName(names, name) <==> (names.Some? ==> exists n | n in names.value :: SameButCase(n, name))
  {
    hide EqIgnoreCase, SameButCase;
    if names.Some? {
      forall n | n in names.value ensures EqIgnoreCase(n, name) <==> SameButCase(n, name) {
        EqIgnoreCaseIff(n, name);
      }
    }
  }

  /** The check, dimension by dimension. */
  lemma CheckByDimension(c: SessionConstraints, q: Request)
    ensures CheckRequest(c, q).Ok? <==>
            && AdmitsExactly(c.credentials, q.credential) && AdmitsExactly(c.environments, q.environment)
            && AdmitsName(c.hosts, q.host) && AdmitsName(c.methods, q.verb) && AdmitsPath(c.paths, q.path)
  {
    hide EqIgnoreCase, SameButCase, PathMatches, Lower;
    CheckNamesFirstViolation(c, q);
    AdmitsNameButForCase(c.hosts, q.host);
    AdmitsNameButForCase(c.methods, q.verb);
    assert Satisfies(c, q, Credential) <==> AdmitsExactly(c.credentials, q.credential);
    assert Satisfies(c, q, Environment) <==> AdmitsExactly(c.environments, q.environment);
    assert Satisfies(c, q, Host) <==> AdmitsName(c.hosts, q.host);
    assert Satisfies(c, q, Method) <==> AdmitsName(c.methods, q.verb);
    assert Satisfies(c, q, Path) <==> AdmitsPath(c.paths, q.path);
  }

  lemma CommonValue(parent: Option<set<string>>, requested: Option<set<string>>) returns (value: string)
    requires NarrowSet(parent, requested) != Some({})
    ensures AdmitsExactly(parent, value) && AdmitsExactly(requested, value)
  {
    var both := NarrowSet(parent, requested);
    value := "";
    if both.Some? {
      assert both.value != {};
      value :| value in both.value;
    }
  }

  /** Sets of credentials and of environments intersect exactly. */
  lemma ExactSetsKeepCommon(parent: Option<set<string>>, requested: Option<set<string>>, value: string)
    ensures AdmitsExactly(NarrowSet(parent, requested), value) <==>
            AdmitsExactly(parent, value) && AdmitsExactly(requested, value)
  {
  }

  lemma LosslessNarrowAdmits(p: SessionConstraints, r: SessionConstraints, q: Request)
    requires NarrowLossless(p, r) && CheckRequest(p, q).Ok? && CheckRequest(r, q).Ok?
    ensures CheckRequest(Narrow(p, r), q).Ok?
  {
    hide CheckRequest, NamesLossless, PathsLossless, NamesDisjoint, PathsDisjoint, AdmitsName, AdmitsPath,
         AdmitsExactly;
    hide NarrowSet, NarrowPaths;
    CheckByDimension(p, q);
    CheckByDimension(r, q);
    CheckByDimension(Narrow(p, r), q);
    ExactSetsKeepCommon(p.credentials, r.credentials, q.credential);
    ExactSetsKeepCommon(p.environments, r.environments, q.environment);
    if JointlyEmpty(p, r) {
      JointlyEmptyAdmitsNothing(p, r, q);
      assert false;
    }
    LosslessNamesKeepCommon(p.hosts, r.hosts, q.host);
    LosslessNamesKeepCommon(p.methods, r.methods, q.verb);
    LosslessPathsKeepCommon(p.paths, r.paths, q.path);
  }

  lemma JointlyEmptyAdmitsNothing(p: SessionConstraints, r: SessionConstraints, q: Request)
    requires JointlyEmpty(p, r)
    ensures !(CheckRequest(p, q).Ok? && CheckRequest(r, q).Ok?)
  {
    hide CheckRequest, NamesDisjoint, PathsDisjoint, AdmitsName, AdmitsPath;
    CheckByDimension(p, q);
    CheckByDimension(r, q);
    ExactSetsKeepCommon(p.credentials, r.credentials, q.credential);
    ExactSetsKeepCommon(p.environments, r.environments, q.environment);
    if NamesDisjoint(p.hosts, r.hosts) {
      DisjointNamesShareNone(p.hosts, r.hosts, q.host);
    }
    if NamesDisjoint(p.methods, r.methods) {
      DisjointNamesShareNone(p.methods, r.methods, q.verb);
    }
    if PathsDisjoint(p.paths, r.paths) {
      DisjointPathsShareNone(p.paths, r.paths, q.path);
    }
  }

  /** Otherwise one request shows it. */
  lemma LossyNarrowLosesOne(p: SessionConstraints, r: SessionConstraints) returns (q: Request)
    requires !NarrowLossless(p, r)
    ensures CheckRequest(p, q).Ok? && CheckRequest(r, q).Ok? && CheckRequest(Narrow(p, r), q).Err?
  {
    hide CheckRequest, NamesLossless, PathsLossless, NamesDisjoint, PathsDisjoint, AdmitsName, AdmitsPath,
         AdmitsExactly;
    var credential := CommonValue(p.credentials, r.credentials);
    var environment := CommonValue(p.environments, r.environments);
    var host := CommonName(p.hosts, r.hosts);
    var verb := CommonName(p.methods, r.methods);
    var path := CommonPath(p.paths, r.paths);
    if !NamesLossless(p.hosts, r.hosts) {
      host := LossyNamesLoseOne(p.hosts, r.hosts);
    } else if !NamesLossless(p.methods, r.methods) {
      verb := LossyNamesLoseOne(p.methods, r.methods);
    } else {
      path := LossyPathsLoseOne(p.paths, r.paths);
    }
    q := Request(credential, environment, host, verb, path);
    CheckByDimension(p, q);
    CheckByDimension(r, q);
    CheckByDimension(Narrow(p, r), q);
  }

  /** Narrowing admits everything both operands admit, exactly on the pairs a caller can recognize. */
  lemma NarrowIsTheMeetIffLossless(p: SessionConstraints, r: SessionConstraints)
    ensures NarrowAdmitsAllCommon(p, r) <==> NarrowLossless(p, r)
  {
    if NarrowLossless(p, r) {
      forall q | CheckRequest(p, q).Ok? && CheckRequest(r, q).Ok? ensures CheckRequest(Narrow(p, r), q).Ok? {
        LosslessNarrowAdmits(p, r, q);
      }
    } else {
      var q := LossyNarrowLosesOne(p, r);
    }
  }

  // --- Inputs on which it does not ---------------------------------------------------------------------

  const FREE := SessionConstraints(None, None, None, None, None, None)

  /** Methods that differ only in case are lost, as hosts are. */
  lemma MethodCaseIsLost()
    ensures !NarrowAdmitsAllCommon(FREE.(methods := Some({"A"})), FREE.(methods := Some({"a"})))
  {
    assert Lower("A") == Lower("a");
    assert EqIgnoreCase("A", "a") && EqIgnoreCase("A", "A");
    var a, b := Some({"A"}), Some({"a"});
    assert a.value * b.value == {};
    assert !NamesDisjoint(a, b) && !NamesLossless(a, b);
    NarrowIsTheMeetIffLossless(FREE.(methods := a), FREE.(methods := b));
  }

  lemma TwoSegments(x: string, y: string)
    requires '/' !in x && '/' !in y
    ensures Segments("/" + x + "/" + y) == [x, y]
  {
    assert ("/" + x + "/" + y)[1..] == x + "/" + y;
    SplitConcat(x, '/', y);
    SplitPiece(x, '/');
    SplitPiece(y, '/');
  }

  predicate Literal(s: string) {
    s != "" && s != ".." && s != "*" && s != "**" && '/' !in s
  }

  /** A pattern ending in a wildcard and one starting with it cross at one path. */
  lemma CrossingPatterns(k: string, w: string, path: string, x: string, y: string)
    requires Literal(x) && Literal(y) && k != "" && k[0] == '/' && w != "" && w[0] == '/'
    requires Segments(k) == [x, "*"] && Segments(w) == ["*", y] && Segments(path) == [x, y]
    ensures PathMatches(k, path) && PathMatches(w, path) && !GlobSubsumes(k, w)
  {
    hide Segments;
    PathMatchesByGlob(k, path);
    PathMatchesByGlob(w, path);
    assert GlobMatches(GlobOf(k), [x, y]) && GlobMatches(GlobOf(w), [x, y]);
    assert GlobOf(k).fixed[0] == x && GlobOf(w).fixed[0] == "*";
  }

  /** Such a path is lost: whatever two literal segments, both sides admit it and their narrowing does not. */
  lemma CrossingPathsAreLost(x: string, y: string)
    requires Literal(x) && Literal(y)
    ensures var parent := FREE.(paths := Some(["/" + x + "/" + "*"]));
            var requested := FREE.(paths := Some(["/" + "*" + "/" + y]));
            var q := Request("", "", "", "", "/" + x + "/" + y);
            && CheckRequest(parent, q).Ok? && CheckRequest(requested, q).Ok?
            && CheckRequest(Narrow(parent, requested), q) == Err(Path)
  {
    hide PathMatches, GlobSubsumes, Segments;
    var k, w, path := "/" + x + "/" + "*", "/" + "*" + "/" + y, "/" + x + "/" + y;
    TwoSegments(x, "*");
    TwoSegments("*", y);
    TwoSegments(x, y);
    CrossingPatterns(k, w, path, x, y);
    assert k in [k] && w in [w] && !Kept([k], w);
  }
}
