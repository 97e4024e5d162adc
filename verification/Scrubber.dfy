/** The scanner that replaces secret-shaped spans of a response body; each `char` stands for one byte. */
module Scrubber {

  const REDACTED := "[redacted]"

  predicate IsUpperOrDigit(c: char) { '0' <= c <= '9' || 'A' <= c <= 'Z' }

  predicate IsAlnum(c: char) { IsUpperOrDigit(c) || 'a' <= c <= 'z' }

  predicate IsTail(c: char) { IsAlnum(c) || c == '_' }

  /** Length of the longest prefix whose bytes all satisfy `p`. */
  function Run(p: char -> bool, s: string): (n: nat)
    ensures n <= |s|
    ensures forall i | 0 <= i < n :: p(s[i])
    ensures n < |s| ==> !p(s[n])
  {
    if s == "" || !p(s[0]) then 0 else 1 + Run(p, s[1..])
  }

  function AlnumRun(s: string): nat { Run(IsAlnum, s) }

  /** The span after `AKIA`: exactly sixteen upper-case letters or digits. */
  function AwsKeyIdRun(s: string): nat {
    if |s| >= 16 && forall i | 0 <= i < 16 :: IsUpperOrDigit(s[i]) then 16 else 0
  }

  /** The span after `github_pat_`: the id, and the tail after its separator when long enough. */
  function FineGrainedPatSpan(s: string): (n: nat)
    ensures n <= |s|
    ensures n >= 22 <==> AlnumRun(s) >= 22
  {
    var id := AlnumRun(s);
    if id < 22 then 0
    else if id < |s| && s[id] == '_' then
      var tail := Run(IsTail, s[id + 1..]);
      if tail >= 20 then id + 1 + tail else id
    else id
  }

  /** GitHub classic tokens, GitHub fine-grained tokens, OpenAI-style keys, AWS access key ids. */
  datatype Rule = Ghp | GithubPat | Sk | Akia

  const RULES := [Ghp, GithubPat, Sk, Akia]

  function Prefix(rule: Rule): (p: string)
    ensures 3 <= |p| <= 11 && '[' !in p
  {
    match rule
    case Ghp => "ghp_"
    case GithubPat => "github_pat_"
    case Sk => "sk-"
    case Akia => "AKIA"
  }

  function MinRun(rule: Rule): (n: nat)
    ensures n >= 16 && n + |Prefix(rule)| > |REDACTED|
  {
    match rule
    case Ghp => 36
    case GithubPat => 22
    case Sk => 20
    case Akia => 16
  }

  /** How far the rule's shape reaches into `rest`, the bytes after its prefix. */
  function RunLength(rule: Rule, rest: string): (n: nat)
    ensures n <= |rest|
  {
    match rule
    case Akia => AwsKeyIdRun(rest)
    case GithubPat => FineGrainedPatSpan(rest)
    case _ => AlnumRun(rest)
  }

  predicate Matches(rule: Rule, s: string) {
    Prefix(rule) <= s && RunLength(rule, s[|Prefix(rule)|..]) >= MinRun(rule)
  }

  predicate AnyMatch(s: string) {
    exists rule :: Matches(rule, s)
  }

  /** The span one rule consumes at the start of `s`. */
  function RuleSpan(rule: Rule, s: string): (n: nat)
    requires Matches(rule, s)
    ensures |REDACTED| < n <= |s|
  {
    |Prefix(rule)| + RunLength(rule, s[|Prefix(rule)|..])
  }

  /** The span the first matching rule consumes; zero when none matches. */
  function SpanFrom(rules: seq<Rule>, s: string): (n: nat)
    ensures n <= |s|
  {
    if rules == [] then 0
    else if Matches(rules[0], s) then RuleSpan(rules[0], s)
    else SpanFrom(rules[1..], s)
  }

  function Span(s: string): (n: nat)
    ensures n <= |s|
  {
    SpanFrom(RULES, s)
  }

  lemma PrefixesAreDistinct(a: Rule, b: Rule, s: string)
    requires Prefix(a) <= s && Prefix(b) <= s
    ensures a == b
  {
    assert Prefix(a)[0] == s[0] == Prefix(b)[0] && Prefix(a)[1] == s[1] == Prefix(b)[1];
  }

  lemma {:induction false} SpanFromFindsRule(rules: seq<Rule>, rule: Rule, s: string)
    requires rule in rules && Matches(rule, s)
    ensures SpanFrom(rules, s) == RuleSpan(rule, s)
  {
    if Matches(rules[0], s) {
      PrefixesAreDistinct(rules[0], rule, s);
    } else {
      SpanFromFindsRule(rules[1..], rule, s);
    }
  }

  lemma {:induction false} SpanFromNothing(rules: seq<Rule>, s: string)
    requires !AnyMatch(s)
    ensures SpanFrom(rules, s) == 0
  {
    if rules != [] {
      SpanFromNothing(rules[1..], s);
    }
  }

  /** At most one rule has its prefix at a position, so the order of the rules does not matter. */
  lemma SpanOfMatch(s: string)
    ensures AnyMatch(s) <==> Span(s) > 0
    ensures AnyMatch(s) ==> Span(s) > |REDACTED|
    ensures forall rule | Matches(rule, s) :: Span(s) == RuleSpan(rule, s)
  {
    if !AnyMatch(s) {
      SpanFromNothing(RULES, s);
    }
    forall rule | Matches(rule, s) ensures Span(s) == RuleSpan(rule, s) {
      assert RULES[0] == Ghp && RULES[1] == GithubPat && RULES[2] == Sk && RULES[3] == Akia;
      SpanFromFindsRule(RULES, rule, s);
    }
  }

  /** What the scanner computes, one byte or one span at a time. */
  function Scrub(s: string): string
    decreases |s|
  {
    if s == "" then ""
    else if Span(s) > 0 then REDACTED + Scrub(s[Span(s)..])
    else [s[0]] + Scrub(s[1..])
  }

  /** The inner loop: try the rules in order at the start of `rest`. */
  method FindSpan(rest: string) returns (span: nat)
    ensures span == Span(rest)
  {
    for k := 0 to |RULES|
      invariant Span(rest) == SpanFrom(RULES[k..], rest)
    {
      var rule := RULES[k];
      assert RULES[k..][0] == rule && RULES[k..][1..] == RULES[k + 1..];
      if Prefix(rule) <= rest {
        var run := RunLength(rule, rest[|Prefix(rule)|..]);
        if run >= MinRun(rule) {
          return |Prefix(rule)| + run;
        }
      }
    }
    return 0;
  }

  lemma ScrubFrom(body: string, index: nat)
    requires index < |body|
    ensures var span := Span(body[index..]);
            Scrub(body[index..]) == if span > 0 then REDACTED + Scrub(body[index + span..])
                                    else [body[index]] + Scrub(body[index + 1..])
  {
    var span := Span(body[index..]);
    assert body[index..][span..] == body[index + span..];
    assert body[index..][1..] == body[index + 1..];
  }

  method ScrubSecretPatterns(body: string) returns (out: string)
    ensures out == Scrub(body)
  {
    hide Scrub, Span;
    out := "";
    var index := 0;
    assert body[0..] == body && "" + Scrub(body) == Scrub(body);
    while index < |body|
      invariant 0 <= index <= |body|
      invariant Scrub(body) == out + Scrub(body[index..])
    {
      ScrubFrom(body, index);
      var span := FindSpan(body[index..]);
      var emitted := if span > 0 then REDACTED else [body[index]];
      var next := if span > 0 then index + span else index + 1;
      assert out + (emitted + Scrub(body[next..])) == (out + emitted) + Scrub(body[next..]);
      out, index := out + emitted, next;
    }
    EmptyScrub(body[index..]);
  }

  lemma EmptyScrub(s: string)
    requires s == ""
    ensures Scrub(s) == ""
  {
  }

  // --- The output matches no rule anywhere ---------------------------------------------------------------

  predicate Clean(s: string) {
    forall i | 0 <= i <= |s| :: !AnyMatch(s[i..])
  }

  /** A run that stops before a byte outside the class does not depend on what follows. */
  lemma {:induction false} RunBeforeBreak(p: char -> bool, x: string, y: string, z: string)
    requires z == "" || !p(z[0])
    ensures Run(p, x + z) <= Run(p, x + y)
  {
    if x != "" {
      assert (x + z)[1..] == x[1..] + z && (x + y)[1..] == x[1..] + y;
      RunBeforeBreak(p, x[1..], y, z);
    } else {
      assert x + z == z;
    }
  }

  lemma AwsRunBeforeBreak(x: string, y: string, z: string)
    requires z == "" || z[0] == '['
    ensures AwsKeyIdRun(x + z) <= AwsKeyIdRun(x + y)
  {
    if AwsKeyIdRun(x + z) > 0 {
      assert |x| < 16 ==> (x + z)[|x|] == '[' && !IsUpperOrDigit('[');
      assert forall i | 0 <= i < 16 :: (x + y)[i] == (x + z)[i];
    }
  }

  lemma RunLengthBeforeBreak(rule: Rule, x: string, y: string, z: string)
    requires z == "" || z[0] == '['
    requires RunLength(rule, x + z) >= MinRun(rule)
    ensures RunLength(rule, x + y) >= MinRun(rule)
  {
    match rule
    case Akia => AwsRunBeforeBreak(x, y, z);
    case _ => RunBeforeBreak(IsAlnum, x, y, z);
  }

  lemma PrefixBeforeBreak(prefix: string, x: string, z: string)
    requires z == "" || z[0] == '['
    requires '[' !in prefix && prefix <= x + z
    ensures prefix <= x
  {
    assert forall i | 0 <= i < |prefix| :: prefix[i] == (x + z)[i] != '[';
    assert z != "" ==> (x + z)[|x|] == '[';
    assert prefix == (x + z)[..|prefix|] == x[..|prefix|];
  }

  /** A match that ends before `[` is still a match whatever stood in place of the rest. */
  lemma MatchBeforeBreak(rule: Rule, x: string, y: string, z: string)
    requires z == "" || z[0] == '['
    requires Matches(rule, x + z)
    ensures Matches(rule, x + y)
  {
    hide RunLength, MinRun;
    var n := |Prefix(rule)|;
    PrefixBeforeBreak(Prefix(rule), x, z);
    assert x[..n] == (x + y)[..n];
    assert (x + z)[n..] == x[n..] + z && (x + y)[n..] == x[n..] + y;
    RunLengthBeforeBreak(rule, x[n..], y, z);
  }

  /** The output starts with bytes copied from the input, up to its end or a sentinel. */
  lemma {:induction false} ScrubCopiesUpToSentinel(s: string) returns (x: string, y: string, z: string)
    ensures s == x + y && Scrub(s) == x + z
    ensures z == "" || z[0] == '['
    ensures Span(s) == 0 && s != "" ==> x != ""
    decreases |s|
  {
    if s == "" || Span(s) > 0 {
      x, y, z := "", s, Scrub(s);
    } else {
      x, y, z := ScrubCopiesUpToSentinel(s[1..]);
      x := [s[0]] + x;
    }
  }

  lemma UnmatchedStaysUnmatched(s: string)
    requires !AnyMatch(s)
    ensures !AnyMatch(Scrub(s))
  {
    var x, y, z := ScrubCopiesUpToSentinel(s);
    if rule :| Matches(rule, Scrub(s)) {
      MatchBeforeBreak(rule, x, y, z);
      assert false;
    }
  }

  lemma SentinelMatchesNothing(i: nat, t: string)
    requires i < |REDACTED|
    ensures !AnyMatch((REDACTED + t)[i..])
  {
    var s := (REDACTED + t)[i..];
    assert s[0] == REDACTED[i];
    forall rule ensures !Matches(rule, s) {
      assert Prefix(rule)[0] != s[0];
    }
  }

  lemma CleanBehindSentinel(t: string)
    requires Clean(t)
    ensures Clean(REDACTED + t)
  {
    hide AnyMatch;
    var out := REDACTED + t;
    forall i | 0 <= i <= |out| ensures !AnyMatch(out[i..]) {
      if i < |REDACTED| {
        SentinelMatchesNothing(i, t);
      } else {
        assert out[i..] == t[i - |REDACTED|..];
      }
    }
  }

  lemma CleanBehindChar(c: char, t: string)
    requires Clean(t) && !AnyMatch([c] + t)
    ensures Clean([c] + t)
  {
    hide AnyMatch;
    var out := [c] + t;
    forall i | 0 <= i <= |out| ensures !AnyMatch(out[i..]) {
      if i > 0 {
        assert out[i..] == t[i - 1..];
      } else {
        assert out[i..] == out;
      }
    }
  }

  lemma EmptyIsClean()
    ensures Clean("")
  {
    assert forall i | 0 <= i <= |""| :: ""[i..] == "";
  }

  /** No rule matches at any position of the output. */
  lemma {:induction false} ScrubIsClean(s: string)
    ensures Clean(Scrub(s))
    decreases |s|
  {
    SpanOfMatch(s);
    hide Span, AnyMatch, Clean;
    if s == "" {
      EmptyIsClean();
    } else if Span(s) > 0 {
      ScrubIsClean(s[Span(s)..]);
      CleanBehindSentinel(Scrub(s[Span(s)..]));
    } else {
      ScrubIsClean(s[1..]);
      UnmatchedStaysUnmatched(s);
      CleanBehindChar(s[0], Scrub(s[1..]));
    }
  }

  lemma {:induction false} CleanIsUntouched(s: string)
    requires Clean(s)
    ensures Scrub(s) == s
    decreases |s|
  {
    if s != "" {
      assert s[0..] == s;
      SpanOfMatch(s);
      forall i | 0 <= i <= |s[1..]| ensures !AnyMatch(s[1..][i..]) {
        assert s[1..][i..] == s[i + 1..];
      }
      CleanIsUntouched(s[1..]);
    }
  }

  lemma ScrubIsIdempotent(s: string)
    ensures Scrub(Scrub(s)) == Scrub(s)
  {
    ScrubIsClean(s);
    CleanIsUntouched(Scrub(s));
  }

  lemma {:induction false} ScrubNeverGrows(s: string)
    ensures |Scrub(s)| <= |s|
    decreases |s|
  {
    SpanOfMatch(s);
    if s != "" {
      ScrubNeverGrows(if Span(s) > 0 then s[Span(s)..] else s[1..]);
    }
  }

  // --- What is kept and what is replaced ------------------------------------------------------------------

  predicate AllOf(p: char -> bool, s: string) {
    forall i | 0 <= i < |s| :: p(s[i])
  }

  const DIGITS_AND_UPPER := "0123456789ABCDEFGHIJKLMNOPQRSTUVWXYZ"

  const LOWER := "abcdefghijklmnopqrstuvwxyz"

  ghost predicate InUpper(s: string) {
    forall i | 0 <= i < |s| :: s[i] in DIGITS_AND_UPPER
  }

  ghost predicate InAlnum(s: string) {
    forall i | 0 <= i < |s| :: s[i] in DIGITS_AND_UPPER || s[i] in LOWER
  }

  ghost predicate InTail(s: string) {
    forall i | 0 <= i < |s| :: s[i] in DIGITS_AND_UPPER || s[i] in LOWER || s[i] == '_'
  }

  /** What may follow `github_pat_`: a long id, alone or with `_` and a tail of twenty or more. */
  ghost predicate IsPat(run: string) {
    || (|run| >= 22 && InAlnum(run))
    || exists n | 22 <= n && n + 21 <= |run| :: InAlnum(run[..n]) && run[n] == '_' && InTail(run[n + 1..])
  }

  /** The secret shapes, said without the scanner. */
  ghost predicate IsSecret(s: string) {
    || ("ghp_" <= s && |s| >= 40 && InAlnum(s[4..]))
    || ("sk-" <= s && |s| >= 23 && InAlnum(s[3..]))
    || ("AKIA" <= s && |s| == 20 && InUpper(s[4..]))
    || ("github_pat_" <= s && IsPat(s[11..]))
  }

  lemma ClassesAre(c: char)
    ensures IsUpperOrDigit(c) <==> c in DIGITS_AND_UPPER
    ensures IsAlnum(c) <==> c in DIGITS_AND_UPPER || c in LOWER
    ensures IsTail(c) <==> c in DIGITS_AND_UPPER || c in LOWER || c == '_'
  {
  }

  lemma AllOfClasses(s: string)
    ensures AllOf(IsUpperOrDigit, s) <==> InUpper(s)
    ensures AllOf(IsAlnum, s) <==> InAlnum(s)
    ensures AllOf(IsTail, s) <==> InTail(s)
  {
    hide IsUpperOrDigit, IsAlnum, IsTail, DIGITS_AND_UPPER, LOWER;
    forall i | 0 <= i < |s|
      ensures IsUpperOrDigit(s[i]) <==> s[i] in DIGITS_AND_UPPER
      ensures IsAlnum(s[i]) <==> s[i] in DIGITS_AND_UPPER || s[i] in LOWER
      ensures IsTail(s[i]) <==> s[i] in DIGITS_AND_UPPER || s[i] in LOWER || s[i] == '_'
    {
      ClassesAre(s[i]);
    }
  }

  // The same by rule, in the scanner's terms

  ghost predicate IsShape(rule: Rule, run: string) {
    match rule
    case Ghp => |run| >= 36 && AllOf(IsAlnum, run)
    case Sk => |run| >= 20 && AllOf(IsAlnum, run)
    case Akia => |run| == 16 && AllOf(IsUpperOrDigit, run)
    case GithubPat => (|run| >= 22 && AllOf(IsAlnum, run)) || IsPatWithTail(run)
  }

  ghost predicate IsPatWithTail(run: string) {
    exists n | 22 <= n && n + 21 <= |run| :: AllOf(IsAlnum, run[..n]) && run[n] == '_' && AllOf(IsTail, run[n + 1..])
  }

  ghost predicate HasShape(rule: Rule, s: string) {
    Prefix(rule) <= s && IsShape(rule, s[|Prefix(rule)|..])
  }

  lemma PatIsShape(run: string)
    ensures IsPat(run) <==> IsShape(GithubPat, run)
  {
    hide AllOf, InAlnum, InTail;
    AllOfClasses(run);
    forall n | 22 <= n && n + 21 <= |run|
      ensures InAlnum(run[..n]) <==> AllOf(IsAlnum, run[..n])
      ensures InTail(run[n + 1..]) <==> AllOf(IsTail, run[n + 1..])
    {
      AllOfClasses(run[..n]);
      AllOfClasses(run[n + 1..]);
    }
  }

  lemma IsSecretByRule(s: string)
    ensures IsSecret(s) <==> exists rule :: HasShape(rule, s)
  {
    hide IsPat, InAlnum, InUpper, AllOf, IsPatWithTail;
    SecretRule(s, Ghp);
    SecretRule(s, Sk);
    SecretRule(s, Akia);
    SecretRule(s, GithubPat);
    assert HasShape(Ghp, s) <==> "ghp_" <= s && |s| >= 40 && InAlnum(s[4..]);
    if rule :| HasShape(rule, s) {
      match rule case _ =>
    }
  }

  lemma SecretRule(s: string, rule: Rule)
    ensures HasShape(rule, s) <==>
            match rule
            case Ghp => "ghp_" <= s && |s| >= 40 && InAlnum(s[4..])
            case Sk => "sk-" <= s && |s| >= 23 && InAlnum(s[3..])
            case Akia => "AKIA" <= s && |s| == 20 && InUpper(s[4..])
            case GithubPat => "github_pat_" <= s && IsPat(s[11..])
  {
    hide IsPat, InAlnum, InUpper, AllOf, IsPatWithTail;
    if Prefix(rule) <= s {
      AllOfClasses(s[|Prefix(rule)|..]);
      if rule == GithubPat {
        PatIsShape(s[11..]);
      }
    }
  }

  datatype Piece = Kept(byte: char) | Secret(span: string)

  function Input(pieces: seq<Piece>): string {
    if pieces == [] then ""
    else (if pieces[0].Kept? then [pieces[0].byte] else pieces[0].span) + Input(pieces[1..])
  }

  function Output(pieces: seq<Piece>): string {
    if pieces == [] then ""
    else (if pieces[0].Kept? then [pieces[0].byte] else REDACTED) + Output(pieces[1..])
  }

  lemma RunIsShape(rule: Rule, rest: string)
    requires RunLength(rule, rest) >= MinRun(rule)
    ensures IsShape(rule, rest[..RunLength(rule, rest)])
  {
    var run := rest[..RunLength(rule, rest)];
    if rule == GithubPat && |run| != AlnumRun(rest) {
      var n := AlnumRun(rest);
      assert run[n + 1..] == rest[n + 1..][..|run| - n - 1];
      assert AllOf(IsAlnum, run[..n]) && run[n] == '_' && AllOf(IsTail, run[n + 1..]);
    }
  }

  lemma SpanIsSecret(s: string)
    requires Span(s) > 0
    ensures IsSecret(s[..Span(s)])
  {
    hide IsShape, RunLength, SpanFrom, IsSecret;
    SpanOfMatch(s);
    var rule :| Matches(rule, s);
    var n := |Prefix(rule)|;
    RunIsShape(rule, s[n..]);
    assert s[..Span(s)][n..] == s[n..][..RunLength(rule, s[n..])];
    assert HasShape(rule, s[..Span(s)]);
    IsSecretByRule(s[..Span(s)]);
  }

  // --- The span is the longest secret at its position ----------------------------------------------------

  lemma RunAtLeast(p: char -> bool, s: string, n: nat)
    requires n <= |s| && AllOf(p, s[..n])
    ensures Run(p, s) >= n
  {
    assert forall i | 0 <= i < n :: s[..n][i] == s[i];
  }

  lemma PatTailRun(rest: string, m: nat)
    requires m <= |rest| && IsPatWithTail(rest[..m])
    ensures FineGrainedPatSpan(rest) >= m
  {
    hide Run;
    var run := rest[..m];
    var n :| 22 <= n && n + 21 <= m && AllOf(IsAlnum, run[..n]) && run[n] == '_' && AllOf(IsTail, run[n + 1..]);
    assert rest[..n] == run[..n] && rest[n] == '_';
    RunAtLeast(IsAlnum, rest, n);
    assert rest[n + 1..][..m - n - 1] == run[n + 1..];
    RunAtLeast(IsTail, rest[n + 1..], m - n - 1);
  }

  lemma ShapeIsRun(rule: Rule, rest: string, m: nat)
    requires m <= |rest| && IsShape(rule, rest[..m])
    ensures RunLength(rule, rest) >= m >= MinRun(rule)
  {
    match rule
    case Akia => assert forall i | 0 <= i < 16 :: rest[..m][i] == rest[i];
    case GithubPat =>
      if IsPatWithTail(rest[..m]) {
        PatTailRun(rest, m);
      } else {
        RunAtLeast(IsAlnum, rest, m);
      }
    case _ => RunAtLeast(IsAlnum, rest, m);
  }

  /** No secret at the start of `s` is longer than `n`. */
  ghost predicate NoSecretBeyond(s: string, n: nat) {
    forall m | n < m <= |s| :: !IsSecret(s[..m])
  }

  lemma SecretWithinSpan(s: string, m: nat)
    requires m <= |s| && IsSecret(s[..m])
    ensures m <= Span(s)
  {
    hide IsShape, RunLength, SpanFrom, MinRun, IsSecret;
    IsSecretByRule(s[..m]);
    var rule :| HasShape(rule, s[..m]);
    var n := |Prefix(rule)|;
    assert s[..m][n..] == s[n..][..m - n];
    ShapeIsRun(rule, s[n..], m - n);
    assert s[..n] == s[..m][..n];
    assert Matches(rule, s);
    SpanOfMatch(s);
  }

  /** The scanner's span is the longest secret at its position, or zero when none starts there. */
  lemma SpanIsLongestSecret(s: string)
    ensures NoSecretBeyond(s, Span(s))
    ensures Span(s) > 0 ==> IsSecret(s[..Span(s)])
  {
    if Span(s) > 0 {
      SpanIsSecret(s);
    }
    forall m | Span(s) < m <= |s| ensures !IsSecret(s[..m]) {
      if IsSecret(s[..m]) {
        SecretWithinSpan(s, m);
        assert false;
      }
    }
  }

  /** Leftmost-longest reading: a byte is kept where no secret starts, and a secret is taken at its longest. */
  ghost predicate Reads(pieces: seq<Piece>, s: string)
    decreases |pieces|
  {
    if pieces == [] then s == ""
    else
      match pieces[0]
      case Kept(b) =>
        s != "" && s[0] == b && NoSecretBeyond(s, 0) && Reads(pieces[1..], s[1..])
      case Secret(span) =>
        span <= s && IsSecret(span) && NoSecretBeyond(s, |span|) && Reads(pieces[1..], s[|span|..])
  }

  function Pieces(s: string): seq<Piece>
    decreases |s|
  {
    if s == "" then []
    else if Span(s) > 0 then [Secret(s[..Span(s)])] + Pieces(s[Span(s)..])
    else [Kept(s[0])] + Pieces(s[1..])
  }

  lemma {:induction false} PiecesRead(s: string)
    ensures Reads(Pieces(s), s)
    decreases |s|
  {
    SpanIsLongestSecret(s);
    if s != "" {
      var rest := if Span(s) > 0 then s[Span(s)..] else s[1..];
      PiecesRead(rest);
      assert Pieces(s)[1..] == Pieces(rest);
    }
  }

  lemma {:induction false} PiecesRender(s: string)
    ensures Input(Pieces(s)) == s && Output(Pieces(s)) == Scrub(s)
    decreases |s|
  {
    if s != "" {
      var rest := if Span(s) > 0 then s[Span(s)..] else s[1..];
      PiecesRender(rest);
      assert Pieces(s)[1..] == Pieces(rest);
    }
  }

  lemma {:induction false} ReadingIsUnique(a: seq<Piece>, b: seq<Piece>, s: string)
    requires Reads(a, s) && Reads(b, s)
    ensures a == b
    decreases |a|
  {
    if a != [] && b != [] {
      LongestSecretIsUnique(a[0], b[0], s);
      ReadingIsUnique(a[1..], b[1..], if a[0].Kept? then s[1..] else s[|a[0].span|..]);
    }
  }

  lemma LongestSecretIsUnique(a: Piece, b: Piece, s: string)
    requires if a.Kept? then s != "" && s[0] == a.byte && NoSecretBeyond(s, 0)
             else a.span <= s && IsSecret(a.span) && NoSecretBeyond(s, |a.span|)
    requires if b.Kept? then s != "" && s[0] == b.byte && NoSecretBeyond(s, 0)
             else b.span <= s && IsSecret(b.span) && NoSecretBeyond(s, |b.span|)
    ensures a == b
  {
    assert a.Secret? ==> a.span == s[..|a.span|] && a.span != "";
    assert b.Secret? ==> b.span == s[..|b.span|] && b.span != "";
  }

  /**
   * The input has exactly one leftmost-longest reading as kept bytes and secrets, and the output is that
   * reading with every kept byte in place and every secret replaced by the sentinel.
   */
  lemma ScrubReplacesOnlySecrets(s: string)
    ensures exists pieces :: Reads(pieces, s)
    ensures forall pieces | Reads(pieces, s) :: Input(pieces) == s && Output(pieces) == Scrub(s)
  {
    PiecesRead(s);
    PiecesRender(s);
    forall pieces | Reads(pieces, s) ensures Input(pieces) == s && Output(pieces) == Scrub(s) {
      ReadingIsUnique(pieces, Pieces(s), s);
    }
  }
}
