/** Segment-oriented path patterns and the procedure that decides containment between them. */
module PathGlob {
  import opened Text

  function Segments(value: string): (segments: seq<string>)
    ensures segments != []
  {
    Split(if value != "" && value[0] == '/' then value[1..] else value, '/')
  }

  predicate ValidSegments(segments: seq<string>) {
    forall i | 0 <= i < |segments| ::
      && segments[i] != ""
      && segments[i] != ".."
      && (segments[i] == "**" ==> i + 1 == |segments|)
  }

  predicate ValidPattern(pattern: string) {
    pattern != "" && pattern[0] == '/' && ValidSegments(Segments(pattern))
  }

  predicate SegmentMatches(pattern: string, segment: string) {
    if pattern == "*" then segment != "" else pattern == segment
  }

  predicate MatchSegments(pattern: seq<string>, path: seq<string>) {
    if pattern == [] then path == []
    else if pattern[0] == "**" then true
    else path != [] && SegmentMatches(pattern[0], path[0]) && MatchSegments(pattern[1..], path[1..])
  }

  predicate PathMatches(pattern: string, path: string) {
    ValidPattern(pattern) && MatchSegments(Segments(pattern), Segments(path))
  }

  /** A valid pattern as its fixed segments and whether a trailing `**` follows them. */
  datatype Glob = Glob(fixed: seq<string>, open: bool)

  function ParseGlob(pattern: string): Option<Glob> {
    if !ValidPattern(pattern) then None
    else
      var segments := Segments(pattern);
      var last := |segments| - 1;
      if segments[last] == "**" then Some(Glob(segments[..last], true)) else Some(Glob(segments, false))
  }

  predicate CoveredPrefix(parent: seq<string>, child: seq<string>) {
    forall i | 0 <= i < |parent| && i < |child| :: parent[i] == "*" || parent[i] == child[i]
  }

  /** The branches of `glob_subsumes` on split patterns. */
  predicate Covers(p: Glob, c: Glob) {
    if p.fixed == [] && p.open then true
    else if c.fixed == [] && c.open then false
    else if !p.open && !c.open then |p.fixed| == |c.fixed| && CoveredPrefix(p.fixed, c.fixed)
    else if p.open then |c.fixed| >= |p.fixed| && CoveredPrefix(p.fixed, c.fixed)
    else false
  }

  /** `glob_subsumes`: an invalid pattern on either side is never subsumed. */
  predicate GlobSubsumes(parent: string, child: string) {
    match (ParseGlob(parent), ParseGlob(child))
    case (Some(p), Some(c)) => Covers(p, c)
    case _ => false
  }

  // --- What a glob matches, without recursion -----------------------------------------

  predicate GlobMatches(g: Glob, path: seq<string>) {
    && (if g.open then |path| >= |g.fixed| else |path| == |g.fixed|)
    && forall i | 0 <= i < |g.fixed| :: SegmentMatches(g.fixed[i], path[i])
  }

  lemma {:induction false} MatchSegmentsIsGlobMatches(g: Glob, path: seq<string>)
    requires "**" !in g.fixed
    ensures MatchSegments(g.fixed + (if g.open then ["**"] else []), path) <==> GlobMatches(g, path)
    decreases |g.fixed|
  {
    var pattern := g.fixed + (if g.open then ["**"] else []);
    if g.fixed != [] && path != [] {
      var g' := Glob(g.fixed[1..], g.open);
      MatchSegmentsIsGlobMatches(g', path[1..]);
      assert pattern[1..] == g'.fixed + (if g.open then ["**"] else []);
      assert GlobMatches(g, path) ==> GlobMatches(g', path[1..]);
      if GlobMatches(g', path[1..]) && SegmentMatches(pattern[0], path[0]) {
        forall i | 0 <= i < |g.fixed| ensures SegmentMatches(g.fixed[i], path[i]) {
          if i > 0 {
            assert SegmentMatches(g'.fixed[i - 1], path[1..][i - 1]);
          }
        }
      }
    }
  }

  lemma PathMatchesByGlob(pattern: string, path: string)
    requires ValidPattern(pattern)
    ensures PathMatches(pattern, path) <==> GlobMatches(ParseGlob(pattern).value, Segments(path))
  {
    var g := ParseGlob(pattern).value;
    assert Segments(pattern) == g.fixed + (if g.open then ["**"] else []);
    MatchSegmentsIsGlobMatches(g, Segments(path));
  }

  // --- Exactness --------------------------------------------------------------------------

  lemma GlobSubsumesSound(parent: string, child: string, path: string)
    requires GlobSubsumes(parent, child) && PathMatches(child, path)
    ensures PathMatches(parent, path)
  {
    PathMatchesByGlob(parent, path);
    PathMatchesByGlob(child, path);
    var p, c := ParseGlob(parent).value, ParseGlob(child).value;
    forall i | 0 <= i < |p.fixed| ensures SegmentMatches(p.fixed[i], Segments(path)[i]) {
      assert SegmentMatches(c.fixed[i], Segments(path)[i]);
      assert c.fixed[i] != "";
    }
  }

  /** A segment matched by `c`, and by `p` only when `p` covers `c`. */
  function Distinguish(p: string, c: string): string {
    if c != "*" then c else if p == "a" then "b" else "a"
  }

  /** The segments of a path in the child's language chosen to escape the parent where possible. */
  function Escaping(p: Glob, c: Glob): (path: seq<string>)
    ensures path != []
    ensures c.fixed != [] ==> |path| == if c.open && !p.open then |c.fixed| + |p.fixed| + 1 else |c.fixed|
    ensures forall i | 0 <= i < |path| && i < |c.fixed| ::
              path[i] == Distinguish(if i < |p.fixed| then p.fixed[i] else "", c.fixed[i])
    ensures forall i | |c.fixed| <= i < |path| :: path[i] == "" || path[i] == "a"
  {
    if c.fixed == [] then [""]
    else
      seq(if c.open && !p.open then |c.fixed| + |p.fixed| + 1 else |c.fixed|, i requires 0 <= i =>
        if i >= |c.fixed| then "a"
        else Distinguish(if i < |p.fixed| then p.fixed[i] else "", c.fixed[i]))
  }

  predicate WellFormed(g: Glob) {
    && (forall i | 0 <= i < |g.fixed| :: g.fixed[i] != "" && '/' !in g.fixed[i])
    && (!g.open ==> g.fixed != [])
  }

  lemma EscapingIsMatched(p: Glob, c: Glob)
    requires WellFormed(c)
    ensures GlobMatches(c, Escaping(p, c))
    ensures forall s | s in Escaping(p, c) :: '/' !in s
  {
  }

  lemma EscapingEscapes(p: Glob, c: Glob)
    requires WellFormed(p) && WellFormed(c) && !Covers(p, c)
    ensures !GlobMatches(p, Escaping(p, c))
  {
    var path := Escaping(p, c);
    if c.fixed == [] {
      assert !SegmentMatches(p.fixed[0], path[0]);
    } else if !CoveredPrefix(p.fixed, c.fixed) {
      var i :| 0 <= i < |p.fixed| && i < |c.fixed| && p.fixed[i] != "*" && p.fixed[i] != c.fixed[i];
      assert !SegmentMatches(p.fixed[i], path[i]);
    }
  }

  lemma SegmentsOfPath(path: seq<string>)
    requires path != [] && forall s | s in path :: '/' !in s
    ensures Segments("/" + Join(path, '/')) == path
  {
    SplitJoin(path, '/');
    assert ("/" + Join(path, '/'))[1..] == Join(path, '/');
  }

  lemma ParsedGlobIsWellFormed(pattern: string)
    requires ValidPattern(pattern)
    ensures WellFormed(ParseGlob(pattern).value)
  {
    SplitPiecesAreClean(pattern[1..], '/');
    var g, segments := ParseGlob(pattern).value, Segments(pattern);
    forall i | 0 <= i < |g.fixed| ensures g.fixed[i] != "" && '/' !in g.fixed[i] {
      assert g.fixed[i] == segments[i] && segments[i] in segments;
    }
  }

  /** When subsumption is refused, one concrete path is matched by the child and not by the parent. */
  lemma EscapingPath(parent: string, child: string) returns (path: string)
    requires ValidPattern(child) && !GlobSubsumes(parent, child)
    ensures PathMatches(child, path) && !PathMatches(parent, path)
  {
    var c := ParseGlob(child).value;
    var p := if ValidPattern(parent) then ParseGlob(parent).value else c;
    var segments := Escaping(p, c);
    path := "/" + Join(segments, '/');
    ParsedGlobIsWellFormed(child);
    EscapingIsMatched(p, c);
    SegmentsOfPath(segments);
    PathMatchesByGlob(child, path);
    if ValidPattern(parent) {
      ParsedGlobIsWellFormed(parent);
      EscapingEscapes(p, c);
      PathMatchesByGlob(parent, path);
    }
  }

  /** `glob_subsumes` decides containment of languages exactly, over all strings. */
  lemma GlobSubsumesIsContainment(parent: string, child: string)
    ensures GlobSubsumes(parent, child) <==>
            ValidPattern(child) && forall path :: PathMatches(child, path) ==> PathMatches(parent, path)
  {
    if GlobSubsumes(parent, child) {
      forall path | PathMatches(child, path) ensures PathMatches(parent, path) {
        GlobSubsumesSound(parent, child, path);
      }
    } else if ValidPattern(child) {
      var path := EscapingPath(parent, child);
    }
  }

  lemma GlobSubsumesIsAPreorder(a: string, b: string, c: string)
    ensures GlobSubsumes(a, a) <==> ValidPattern(a)
    ensures GlobSubsumes(a, b) && GlobSubsumes(b, c) ==> GlobSubsumes(a, c)
  {
    GlobSubsumesIsContainment(a, a);
    GlobSubsumesIsContainment(a, b);
    GlobSubsumesIsContainment(b, c);
    GlobSubsumesIsContainment(a, c);
  }

  // --- Patterns and matching, character by character ----------------------------------------------------

  ghost predicate Occurs(s: string, t: string) {
    exists i | 0 <= i <= |s| :: t <= s[i..]
  }

  lemma {:induction false} InnerSegmentOccurs(s: string, w: string)
    requires '/' !in w
    ensures w in Split(s, '/')[..|Split(s, '/')| - 1] <==> Occurs("/" + s, "/" + w + "/")
    decreases |s|
  {
    var k := IndexOf(s, '/');
    if k == |s| {
      OneSegmentHasNoInner(s, w);
    } else {
      var a, b := s[..k], s[k + 1..];
      assert s == a + ['/'] + b;
      SplitConcat(a, '/', b);
      SplitPiece(a, '/');
      InnerSegmentOccurs(b, w);
      FirstOrLaterOccurs(a, b, w);
      var later := Split(b, '/');
      assert Split(s, '/')[..|later|] == [a] + later[..|later| - 1];
    }
  }

  lemma OneSegmentHasNoInner(s: string, w: string)
    requires '/' !in s && '/' !in w
    ensures Split(s, '/') == [s] && !Occurs("/" + s, "/" + w + "/")
  {
    SplitPiece(s, '/');
    var t, u := "/" + s, "/" + w + "/";
    forall i | 0 <= i <= |t| ensures !(u <= t[i..]) {
      assert u[|u| - 1] == '/';
      assert |u| <= |t[i..]| ==> t[i..][|u| - 1] == s[i + |u| - 2];
    }
  }

  lemma FirstOccurs(a: string, b: string, w: string)
    ensures w == a || Occurs("/" + b, "/" + w + "/") ==> Occurs("/" + (a + "/" + b), "/" + w + "/")
  {
    var t, u := "/" + (a + "/" + b), "/" + w + "/";
    if w == a {
      assert t == u + b && t[0..] == t;
    }
    if Occurs("/" + b, u) {
      var n, later := |a| + 1, "/" + b;
      var i :| 0 <= i <= |later| && u <= later[i..];
      assert t[n..] == later && t[n + i..] == later[i..];
    }
  }

  lemma FirstOrLaterOccurs(a: string, b: string, w: string)
    requires '/' !in a && '/' !in w
    ensures Occurs("/" + (a + "/" + b), "/" + w + "/") <==> w == a || Occurs("/" + b, "/" + w + "/")
  {
    var t, u := "/" + (a + "/" + b), "/" + w + "/";
    var n := |a| + 1;
    assert t[n..] == "/" + b;
    FirstOccurs(a, b, w);
    if Occurs(t, u) {
      var i :| 0 <= i <= |t| && u <= t[i..];
      assert t[i] == t[i..][0] == u[0] == '/';
      if i >= n {
        assert t[n..][i - n..] == t[i..];
      } else {
        assert forall j | 1 <= j <= |a| :: t[j] == a[j - 1];
        assert i == 0;
        FirstSegmentIs(a, b, w);
      }
    }
  }

  lemma FirstSegmentIs(a: string, b: string, w: string)
    requires '/' !in a && '/' !in w && "/" + w + "/" <= "/" + (a + "/" + b)
    ensures w == a
  {
    var t, u := "/" + (a + "/" + b), "/" + w + "/";
    assert t[|a| + 1] == '/' && u[|w| + 1] == '/';
    assert forall j | 0 <= j < |u| :: u[j] == t[j];
    assert forall j | 1 <= j <= |a| :: t[j] == a[j - 1] != '/';
    assert forall j | 1 <= j <= |w| :: u[j] == w[j - 1] != '/';
    assert w == u[1..|w| + 1] && a == t[1..|a| + 1];
  }

  lemma SegmentOccurs(s: string, w: string)
    requires '/' !in w
    ensures w in Split(s, '/') <==> Occurs("/" + s + "/", "/" + w + "/")
  {
    InnerSegmentOccurs(s + "/", w);
    assert s + "/" == s + ['/'] + "";
    SplitConcat(s, '/', "");
    SplitPiece("", '/');
    var pieces := Split(s, '/');
    assert Split(s + "/", '/')[..|pieces|] == pieces;
    assert "/" + (s + "/") == "/" + s + "/";
  }

  /**
   * The pattern grammar on characters: a leading slash, no empty segment, no `..` segment, and `**` as a
   * segment at the very end only.
   */
  lemma ValidPatternIff(pattern: string)
    ensures ValidPattern(pattern) <==>
            && "/" <= pattern
            && !Occurs(pattern + "/", "//")
            && !Occurs(pattern + "/", "/../")
            && !Occurs(pattern, "/**/")
  {
    if "/" <= pattern {
      var s := pattern[1..];
      assert pattern == "/" + s;
      SegmentOccurs(s, "");
      SegmentOccurs(s, "..");
      InnerSegmentOccurs(s, "**");
      assert "/" + "" + "/" == "//" && "/" + ".." + "/" == "/../" && "/" + "**" + "/" == "/**/";
      var segments := Split(s, '/');
      assert Segments(pattern) == segments;
      assert "**" in segments[..|segments| - 1] <==> exists i | 0 <= i < |segments| - 1 :: segments[i] == "**";
    }
  }

  /**
   * A valid pattern against a path, both given by their segments: the path has as many segments as the pattern,
   * or at least those before a trailing `**`, and each equals its own or meets a `*` and is not empty.
   */
  lemma PathMatchesIff(pattern: seq<string>, path: seq<string>)
    requires pattern != [] && path != []
    requires (forall s | s in pattern :: '/' !in s) && (forall s | s in path :: '/' !in s)
    requires ValidPattern("/" + Join(pattern, '/'))
    ensures var open := pattern[|pattern| - 1] == "**";
            var n := if open then |pattern| - 1 else |pattern|;
            PathMatches("/" + Join(pattern, '/'), "/" + Join(path, '/')) <==>
            && (if open then |path| >= n else |path| == n)
            && forall i | 0 <= i < n && i < |path| :: path[i] == pattern[i] || (pattern[i] == "*" && path[i] != "")
  {
    hide Join, Segments, MatchSegments, ValidSegments;
    SegmentsOfPath(pattern);
    SegmentsOfPath(path);
    MatchSegmentsIff(pattern, path);
  }

  lemma MatchSegmentsIff(pattern: seq<string>, path: seq<string>)
    requires pattern != [] && ValidSegments(pattern)
    ensures var open := pattern[|pattern| - 1] == "**";
            var n := if open then |pattern| - 1 else |pattern|;
            MatchSegments(pattern, path) <==>
            && (if open then |path| >= n else |path| == n)
            && forall i | 0 <= i < n && i < |path| :: path[i] == pattern[i] || (pattern[i] == "*" && path[i] != "")
  {
    hide MatchSegments;
    var open := pattern[|pattern| - 1] == "**";
    var n := if open then |pattern| - 1 else |pattern|;
    var g := Glob(pattern[..n], open);
    assert pattern == g.fixed + if open then ["**"] else [];
    assert "**" !in g.fixed;
    MatchSegmentsIsGlobMatches(g, path);
    forall i | 0 <= i < n && i < |path|
      ensures SegmentMatches(g.fixed[i], path[i]) <==> path[i] == pattern[i] || (pattern[i] == "*" && path[i] != "")
    {
      assert pattern[i] != "";
    }
  }
}
