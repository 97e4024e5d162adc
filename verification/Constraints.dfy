/** The constraint set of a delegated session: how delegation narrows it and what it admits. */
module Constraints {
  import opened Text
  import opened PathGlob

  /** `None` leaves a dimension unrestricted. */
  datatype SessionConstraints = SessionConstraints(
    credentials: Option<set<string>>,
    environments: Option<set<string>>,
    hosts: Option<set<string>>,
    methods: Option<set<string>>,
    paths: Option<seq<string>>,
    remaining: Option<nat>)

  datatype Request = Request(credential: string, environment: string, host: string, verb: string, path: string)

  predicate IsUnconstrained(c: SessionConstraints) {
    && c.credentials.None? && c.environments.None? && c.hosts.None?
    && c.methods.None? && c.paths.None? && c.remaining.None?
  }

  // --- Checking a request -----------------------------------------------------------------

  function LowerChar(c: char): char {
    if 'A' <= c <= 'Z' then c - 'A' + 'a' else c
  }

  function Lower(s: string): string {
    seq(|s|, i requires 0 <= i < |s| => LowerChar(s[i]))
  }

  predicate EqIgnoreCase(a: string, b: string) {
    Lower(a) == Lower(b)
  }

  /** The upper- and the lower-case form of one ASCII letter. */
  predicate CasePair(upper: char, lower: char) {
    'A' <= upper <= 'Z' && lower as int == upper as int + 32
  }

  /** Equal position by position, but for the case of ASCII letters. */
  predicate SameButCase(a: string, b: string) {
    && |a| == |b|
    && forall i | 0 <= i < |a| :: a[i] == b[i] || CasePair(a[i], b[i]) || CasePair(b[i], a[i])
  }

  lemma LowerCharMergesCase(a: char, b: char)
    ensures LowerChar(a) == LowerChar(b) <==> a == b || CasePair(a, b) || CasePair(b, a)
  {
  }

  /** The comparison the code makes is equality up to the case of ASCII letters. */
  lemma EqIgnoreCaseIff(a: string, b: string)
    ensures EqIgnoreCase(a, b) <==> SameButCase(a, b)
    ensures EqIgnoreCase(a, Lower(b)) <==> SameButCase(a, b)
  {
    hide LowerChar, CasePair;
    LowerTwice(b);
    if EqIgnoreCase(a, b) {
      assert |a| == |Lower(a)| == |b|;
      forall i | 0 <= i < |a| ensures a[i] == b[i] || CasePair(a[i], b[i]) || CasePair(b[i], a[i]) {
        assert Lower(a)[i] == Lower(b)[i];
        LowerCharMergesCase(a[i], b[i]);
      }
    }
    if SameButCase(a, b) {
      forall i | 0 <= i < |a| ensures Lower(a)[i] == Lower(b)[i] {
        LowerCharMergesCase(a[i], b[i]);
      }
      assert Lower(a) == Lower(b);
    }
  }

  datatype Dimension = Credential | Environment | Host | Method | Path

  /** Names the first violated dimension; the budget is not consulted. */
  function CheckRequest(c: SessionConstraints, q: Request): Result<(), Dimension> {
    if c.credentials.Some? && q.credential !in c.credentials.value then Err(Credential)
    else if c.environments.Some? && q.environment !in c.environments.value then Err(Environment)
    else if c.hosts.Some? && !(exists h | h in c.hosts.value :: EqIgnoreCase(h, Lower(q.host))) then Err(Host)
    else if c.methods.Some? && !(exists m | m in c.methods.value :: EqIgnoreCase(m, q.verb)) then Err(Method)
    else if c.paths.Some? && !(exists p | p in c.paths.value :: PathMatches(p, q.path)) then Err(Path)
    else Ok(())
  }

  /** One dimension on its own; `None` is unrestricted and an empty set admits nothing. */
  predicate Satisfies(c: SessionConstraints, q: Request, d: Dimension) {
    match d
    case Credential => c.credentials.Some? ==> q.credential in c.credentials.value
    case Environment => c.environments.Some? ==> q.environment in c.environments.value
    case Host => c.hosts.Some? ==> exists h | h in c.hosts.value :: SameButCase(h, q.host)
    case Method => c.methods.Some? ==> exists m | m in c.methods.value :: SameButCase(m, q.verb)
    case Path => c.paths.Some? ==> exists p | p in c.paths.value :: PathMatches(p, q.path)
  }

  const DIMENSIONS := [Credential, Environment, Host, Method, Path]

  lemma LowerTwice(s: string)
    ensures Lower(Lower(s)) == Lower(s)
  {
  }

  lemma NamesComparedButForCase(c: SessionConstraints, q: Request)
    ensures c.hosts.Some? ==>
              ((exists h | h in c.hosts.value :: EqIgnoreCase(h, Lower(q.host))) <==>
               exists h | h in c.hosts.value :: SameButCase(h, q.host))
    ensures c.methods.Some? ==>
              ((exists m | m in c.methods.value :: EqIgnoreCase(m, q.verb)) <==>
               exists m | m in c.methods.value :: SameButCase(m, q.verb))
  {
    hide EqIgnoreCase, SameButCase, Lower;
    if c.hosts.Some? {
      forall h | h in c.hosts.value ensures EqIgnoreCase(h, Lower(q.host)) <==> SameButCase(h, q.host) {
        EqIgnoreCaseIff(h, q.host);
      }
    }
    if c.methods.Some? {
      forall m | m in c.methods.value ensures EqIgnoreCase(m, q.verb) <==> SameButCase(m, q.verb) {
        EqIgnoreCaseIff(m, q.verb);
      }
    }
  }

  /** A refusal names the first dimension the request fails, and there is none to name otherwise. */
  lemma CheckNamesFirstViolation(c: SessionConstraints, q: Request)
    ensures CheckRequest(c, q).Ok? <==> forall d :: Satisfies(c, q, d)
    ensures CheckRequest(c, q).Err? ==> exists i | 0 <= i < |DIMENSIONS| ::
              CheckRequest(c, q).error == DIMENSIONS[i] && !Satisfies(c, q, DIMENSIONS[i])
              && forall j | 0 <= j < i :: Satisfies(c, q, DIMENSIONS[j])
  {
    hide EqIgnoreCase, SameButCase, Lower, PathGlob.PathMatches;
    NamesComparedButForCase(c, q);
    assert DIMENSIONS[0] == Credential && DIMENSIONS[1] == Environment && DIMENSIONS[2] == Host
           && DIMENSIONS[3] == Method && DIMENSIONS[4] == Path;
    var all := Satisfies(c, q, Credential) && Satisfies(c, q, Environment) && Satisfies(c, q, Host)
               && Satisfies(c, q, Method) && Satisfies(c, q, Path);
    assert CheckRequest(c, q).Ok? <==> all;
    forall d | all ensures Satisfies(c, q, d) {
      match d case _ =>
    }
  }

  /** Hosts and methods are compared without regard to case, whatever case the request uses. */
  lemma CheckIgnoresCase(c: SessionConstraints, q: Request, host: string, verb: string)
    requires SameButCase(host, q.host) && SameButCase(verb, q.verb)
    ensures CheckRequest(c, q.(host := host, verb := verb)) == CheckRequest(c, q)
  {
    EqIgnoreCaseIff(host, q.host);
    EqIgnoreCaseIff(verb, q.verb);
    LowerTwice(host);
    LowerTwice(q.host);
  }

  /** A session minted directly carries no constraints and admits everything. */
  predicate Admits(c: Option<SessionConstraints>, q: Request) {
    c.Some? ==> CheckRequest(c.value, q).Ok?
  }

  // --- Narrowing --------------------------------------------------------------------------

  function NarrowSet(parent: Option<set<string>>, requested: Option<set<string>>): Option<set<string>> {
    match (parent, requested)
    case (Some(a), Some(b)) => Some(a * b)
    case (only, None) => only
    case (None, only) => only
  }

  predicate Kept(kept: seq<string>, child: string) {
    exists p | p in kept :: GlobSubsumes(p, child)
  }

  function FilterPaths(kept: seq<string>, wanted: seq<string>): (r: seq<string>)
    ensures forall w :: w in r <==> w in wanted && Kept(kept, w)
    ensures |r| <= |wanted|
    ensures r == wanted <==> forall w | w in wanted :: Kept(kept, w)
  {
    if wanted == [] then []
    else
      assert wanted == [wanted[0]] + wanted[1..];
      if Kept(kept, wanted[0]) then [wanted[0]] + FilterPaths(kept, wanted[1..])
      else FilterPaths(kept, wanted[1..])
  }

  function NarrowPaths(parent: Option<seq<string>>, requested: Option<seq<string>>): Option<seq<string>> {
    match (parent, requested)
    case (Some(kept), Some(wanted)) => Some(FilterPaths(kept, wanted))
    case (only, None) => only
    case (None, only) => only
  }

  function NarrowBudget(parent: Option<nat>, requested: Option<nat>): Option<nat> {
    match (parent, requested)
    case (Some(a), Some(b)) => Some(if a <= b then a else b)
    case (only, None) => only
    case (None, only) => only
  }

  function Narrow(parent: SessionConstraints, requested: SessionConstraints): SessionConstraints {
    SessionConstraints(
      NarrowSet(parent.credentials, requested.credentials),
      NarrowSet(parent.environments, requested.environments),
      NarrowSet(parent.hosts, requested.hosts),
      NarrowSet(parent.methods, requested.methods),
      NarrowPaths(parent.paths, requested.paths),
      NarrowBudget(parent.remaining, requested.remaining))
  }

  /** A budget lets `n` requests through. */
  predicate Permits(budget: Option<nat>, n: nat) {
    budget.None? || n <= budget.value
  }

  /** A narrowed budget lets through exactly what both operands do. */
  lemma NarrowedBudgetIsTheMeet(parent: SessionConstraints, requested: SessionConstraints, n: nat)
    ensures Permits(Narrow(parent, requested).remaining, n) <==>
            Permits(parent.remaining, n) && Permits(requested.remaining, n)
  {
  }

  /** Narrowing restricts nothing exactly when neither operand does. */
  lemma NarrowRestrictsIff(parent: SessionConstraints, requested: SessionConstraints)
    ensures IsUnconstrained(Narrow(parent, requested)) <==> IsUnconstrained(parent) && IsUnconstrained(requested)
  {
  }

  /** What a narrowed set admits, both operands admit. */
  lemma NarrowAdmitsOnlyCommon(parent: SessionConstraints, requested: SessionConstraints, q: Request)
    requires CheckRequest(Narrow(parent, requested), q).Ok?
    ensures CheckRequest(parent, q).Ok?
    ensures CheckRequest(requested, q).Ok?
  {
    hide PathGlob.PathMatches, PathGlob.GlobSubsumes, EqIgnoreCase, Lower;
    var n := Narrow(parent, requested);
    if parent.paths.Some? && requested.paths.Some? {
      var w :| w in n.paths.value && PathMatches(w, q.path);
      var p :| p in parent.paths.value && GlobSubsumes(p, w);
      GlobSubsumesSound(p, w, q.path);
    }
  }

  /**
   * The converse is false: sets intersect literally while hosts are compared without case, so a
   * request both operands admit can be outside the narrowed set.
   */
  lemma NarrowIsNotTheMeet() returns (parent: SessionConstraints, requested: SessionConstraints, q: Request)
    ensures CheckRequest(parent, q).Ok? && CheckRequest(requested, q).Ok?
    ensures CheckRequest(Narrow(parent, requested), q) == Err(Host)
  {
    var free := SessionConstraints(None, None, None, None, None, None);
    parent, requested := free.(hosts := Some({"A"})), free.(hosts := Some({"a"}));
    q := Request("", "", "a", "", "");
    assert Lower("A") == Lower(Lower("a"));
    assert {"A"} * {"a"} == {};
  }

  // --- Containment ------------------------------------------------------------------------

  predicate SetWithin(parent: Option<set<string>>, child: Option<set<string>>) {
    parent.Some? ==> child.Some? && child.value <= parent.value
  }

  predicate PathsWithin(parent: Option<seq<string>>, child: Option<seq<string>>) {
    parent.Some? ==> child.Some? && forall w | w in child.value :: Kept(parent.value, w)
  }

  predicate BudgetWithin(parent: Option<nat>, child: Option<nat>) {
    parent.Some? ==> child.Some? && child.value <= parent.value
  }

  /** Containment along every dimension but the budget. */
  predicate ScopeWithin(parent: SessionConstraints, child: SessionConstraints) {
    && SetWithin(parent.credentials, child.credentials)
    && SetWithin(parent.environments, child.environments)
    && SetWithin(parent.hosts, child.hosts)
    && SetWithin(parent.methods, child.methods)
    && PathsWithin(parent.paths, child.paths)
  }

  lemma SetWithinIsFixpoint(parent: Option<set<string>>, child: Option<set<string>>)
    ensures NarrowSet(parent, child) == child <==> SetWithin(parent, child)
  {
    if parent.Some? && child.Some? {
      assert parent.value * child.value == child.value <==> child.value <= parent.value;
    }
  }

  /** The fixpoint the load checker compares against is containment, dimension by dimension. */
  lemma NarrowFixpointIsContainment(parent: SessionConstraints, child: SessionConstraints)
    ensures Narrow(parent, child) == child <==>
            ScopeWithin(parent, child) && BudgetWithin(parent.remaining, child.remaining)
  {
    SetWithinIsFixpoint(parent.credentials, child.credentials);
    SetWithinIsFixpoint(parent.environments, child.environments);
    SetWithinIsFixpoint(parent.hosts, child.hosts);
    SetWithinIsFixpoint(parent.methods, child.methods);
  }

  predicate ValidPaths(c: SessionConstraints) {
    c.paths.Some? ==> forall p | p in c.paths.value :: ValidPattern(p)
  }

  /** Narrowing again changes nothing, exactly when no invalid pattern is inherited from the parent. */
  lemma NarrowIsIdempotent(parent: SessionConstraints, requested: SessionConstraints)
    ensures Narrow(parent, Narrow(parent, requested)) == Narrow(parent, requested) <==>
            requested.paths.Some? || ValidPaths(parent)
  {
    var n := Narrow(parent, requested);
    NarrowFixpointIsContainment(parent, n);
    if parent.paths.Some? && requested.paths.None? {
      forall p | p in parent.paths.value ensures Kept(parent.paths.value, p) <==> ValidPattern(p) {
        GlobSubsumesIsAPreorder(p, p, p);
      }
    }
  }
}
