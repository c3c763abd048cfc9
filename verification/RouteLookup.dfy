/** What looking up a route by path or by id gives, on any registry. */
module RouteLookup {
  import opened Wrappers
  import opened PercentEncoding
  import opened Routes

  // ----- by path

  /** The text without its trailing slashes, unless it is a single character. */
  predicate Normal(pathname: string, path: string) {
    if |pathname| <= 1 then path == pathname
    else
      && path <= pathname && (forall i :: |path| <= i < |pathname| ==> pathname[i] == '/')
      && (path == "" || path[|path| - 1] != '/')
  }

  lemma {:induction false} StripsToLast(s: string)
    ensures StripSlashes(s) <= s && (forall i :: |StripSlashes(s)| <= i < |s| ==> s[i] == '/')
    ensures StripSlashes(s) == "" || StripSlashes(s)[|StripSlashes(s)| - 1] != '/'
  {
    if s != "" && s[|s| - 1] == '/' {
      StripsToLast(s[..|s| - 1]);
    }
  }

  lemma NormalizedIsNormal(pathname: string, path: string)
    ensures path == NormalizePath(pathname) <==> Normal(pathname, path)
  {
    StripsToLast(pathname);
    var stripped := NormalizePath(pathname);
    if Normal(pathname, path) && |pathname| > 1 {
      OneNormal(pathname, path, stripped);
    }
  }

  lemma OneNormal(s: string, a: string, b: string)
    requires |s| > 1 && Normal(s, a) && Normal(s, b)
    ensures a == b
  {
    assert |a| == |b| by {
      assert |a| > 0 ==> s[|a| - 1] != '/';
      assert |b| > 0 ==> s[|b| - 1] != '/';
    }
  }

  predicate FirstWithPath(registry: Registry, path: string, n: nat) {
    n < |registry| && registry[n].path == path && forall m :: 0 <= m < n ==> registry[m].path != path
  }

  predicate HasPath(registry: Registry, path: string) {
    exists n :: 0 <= n < |registry| && registry[n].path == path
  }

  /** The path is a pattern, that is it has a colon, and it matches. */
  predicate PatternFor(r: Route, path: string) {
    ':' in r.path && Matches(r.path, path)
  }

  predicate FirstPattern(registry: Registry, path: string, n: nat) {
    n < |registry| && PatternFor(registry[n], path) && forall m :: 0 <= m < n ==> !PatternFor(registry[m], path)
  }

  lemma {:induction false} FindPathIsFirst(registry: Registry, path: string, n: nat)
    ensures FirstWithPath(registry, path, n) ==> FindPath(registry, path) == Some(registry[n])
    ensures !HasPath(registry, path) ==> FindPath(registry, path) == None
  {
    if registry != [] {
      assert forall m :: 0 <= m < |registry| - 1 ==> registry[1..][m] == registry[m + 1];
      if registry[0].path != path {
        FindPathIsFirst(registry[1..], path, if n > 0 then n - 1 else 0);
      }
    }
  }

  lemma {:induction false} FindPatternIsFirst(registry: Registry, path: string, n: nat)
    ensures FirstPattern(registry, path, n) ==> FindPattern(registry, path) == Some(registry[n])
    ensures (forall m :: 0 <= m < |registry| ==> !PatternFor(registry[m], path)) ==> FindPattern(registry, path) == None
  {
    hide Matches;
    if registry != [] {
      assert forall m :: 0 <= m < |registry| - 1 ==> registry[1..][m] == registry[m + 1];
      if !PatternFor(registry[0], path) {
        FindPatternIsFirst(registry[1..], path, if n > 0 then n - 1 else 0);
      }
    }
  }

  /** A registered path is found as the first route that has it, however many slashes follow. */
  lemma LiteralPageIsFound(registry: Registry, pathname: string, path: string, n: nat)
    requires Normal(pathname, path) && FirstWithPath(registry, path, n)
    ensures RouteByPath(registry, pathname) == Some(registry[n])
  {
    hide Normal;
    NormalizedIsNormal(pathname, path);
    FindPathIsFirst(registry, path, n);
  }

  /** Any other path is found as the first pattern that matches it, or not at all. */
  lemma PatternPageIsFound(registry: Registry, pathname: string, path: string, n: nat)
    requires Normal(pathname, path) && !HasPath(registry, path)
    ensures FirstPattern(registry, path, n) ==> RouteByPath(registry, pathname) == Some(registry[n])
    ensures RouteByPath(registry, pathname) == None
       <==> forall m :: 0 <= m < |registry| ==> !PatternFor(registry[m], path)
  {
    hide Normal, Matches;
    NormalizedIsNormal(pathname, path);
    FindPathIsFirst(registry, path, 0);
    FindPatternIsFirst(registry, path, n);
    if exists m :: 0 <= m < |registry| && PatternFor(registry[m], path) {
      var m := LeastPattern(registry, path);
      FindPatternIsFirst(registry, path, m);
    }
  }

  lemma {:induction false} LeastPattern(registry: Registry, path: string) returns (n: nat)
    requires exists m :: 0 <= m < |registry| && PatternFor(registry[m], path)
    ensures FirstPattern(registry, path, n)
  {
    hide PatternFor;
    n := 0;
    while !PatternFor(registry[n], path)
      invariant n < |registry| && forall m :: 0 <= m < n ==> !PatternFor(registry[m], path)
      decreases |registry| - n
    {
      n := n + 1;
    }
  }

  lemma {:induction false} LeastPath(registry: Registry, path: string) returns (n: nat)
    requires HasPath(registry, path)
    ensures FirstWithPath(registry, path, n)
  {
    n := 0;
    while registry[n].path != path
      invariant n < |registry| && forall m :: 0 <= m < n ==> registry[m].path != path
      decreases |registry| - n
    {
      n := n + 1;
    }
  }

  /** What is found has the path itself, or matches it as a pattern when no route has it. */
  lemma FoundRouteFits(registry: Registry, pathname: string, path: string)
    requires Normal(pathname, path)
    ensures RouteByPath(registry, pathname).Some? ==>
              var r := RouteByPath(registry, pathname).value;
              r in registry && (r.path == path || (!HasPath(registry, path) && PatternFor(r, path)))
    ensures HasPath(registry, path) ==> RouteByPath(registry, pathname).Some?
  {
    hide Normal, PatternFor, HasPath;
    if HasPath(registry, path) {
      var n := LeastPath(registry, path);
      LiteralPageIsFound(registry, pathname, path, n);
    } else {
      PatternPageIsFound(registry, pathname, path, 0);
      if RouteByPath(registry, pathname).Some? {
        var n := LeastPattern(registry, path);
        PatternPageIsFound(registry, pathname, path, n);
      }
    }
  }

  /** Slashes at the end make no difference. */
  lemma TrailingSlashesDoNotMatter(registry: Registry, pathname: string)
    requires |pathname| > 1
    ensures RouteByPath(registry, pathname + "/") == RouteByPath(registry, pathname)
  {
    assert (pathname + "/")[..|pathname|] == pathname;
  }

  /** An entity whose encoded id is a registered sibling, such as "new", leads to that sibling. */
  lemma SiblingIsFound(registry: Registry, base: string, id: string, n: nat)
    requires Base(base) && id != "" && FirstWithPath(registry, base + "/" + Encode(id), n)
    ensures RouteByPath(registry, EntityPath(base + "/:id", id)) == Some(registry[n])
  {
    hide Encode, NormalizePath, ReplaceId;
    var x := Encode(id);
    EncodedIsPathSafe(id);
    ReplaceInDetail(base, x);
    NoTrailingSlash(base, x);
    NormalizedIsNormal(base + "/" + x, base + "/" + x);
    LiteralPageIsFound(registry, base + "/" + x, base + "/" + x, n);
  }

  // ----- by id

  predicate FirstWithId(registry: Registry, id: string, n: nat) {
    n < |registry| && registry[n].id == id && forall m :: 0 <= m < n ==> registry[m].id != id
  }

  predicate FirstWithLegacyId(registry: Registry, id: string, n: nat) {
    n < |registry| && id in registry[n].legacyIds && forall m :: 0 <= m < n ==> id !in registry[m].legacyIds
  }

  lemma {:induction false} FindIdIsFirst(registry: Registry, id: string, n: nat)
    ensures FirstWithId(registry, id, n) ==> FindId(registry, id) == Some(registry[n])
    ensures (forall m :: 0 <= m < |registry| ==> registry[m].id != id) ==> FindId(registry, id) == None
  {
    if registry != [] {
      assert forall m :: 0 <= m < |registry| - 1 ==> registry[1..][m] == registry[m + 1];
      if registry[0].id != id {
        FindIdIsFirst(registry[1..], id, if n > 0 then n - 1 else 0);
      }
    }
  }

  lemma {:induction false} FindLegacyIdIsFirst(registry: Registry, id: string, n: nat)
    ensures FirstWithLegacyId(registry, id, n) ==> FindLegacyId(registry, id) == Some(registry[n])
    ensures (forall m :: 0 <= m < |registry| ==> id !in registry[m].legacyIds) ==> FindLegacyId(registry, id) == None
  {
    if registry != [] {
      assert forall m :: 0 <= m < |registry| - 1 ==> registry[1..][m] == registry[m + 1];
      if id !in registry[0].legacyIds {
        FindLegacyIdIsFirst(registry[1..], id, if n > 0 then n - 1 else 0);
      }
    }
  }

  /** An id finds the first route that has it; an id no route has, the first that had it; another id, none. */
  lemma RouteByIdIsFirst(registry: Registry, id: string, n: nat)
    ensures FirstWithId(registry, id, n) ==> RouteById(registry, id) == Some(registry[n])
    ensures (forall m :: 0 <= m < |registry| ==> registry[m].id != id) ==>
              && (FirstWithLegacyId(registry, id, n) ==> RouteById(registry, id) == Some(registry[n]))
              && ((forall m :: 0 <= m < |registry| ==> id !in registry[m].legacyIds) ==>
                    RouteById(registry, id) == None)
  {
    FindIdIsFirst(registry, id, n);
    FindLegacyIdIsFirst(registry, id, n);
  }

  // ----- patterns, segment by segment

  /** The segments between slashes. */
  function Segments(s: string): (segments: seq<string>)
    ensures segments != []
  {
    if Run(s) == |s| then [s] else [s[..Run(s)]] + Segments(s[Run(s) + 1..])
  }

  /** Segments that begin with a colon are names; a colon anywhere else is not used in a route path. */
  predicate WellFormed(segments: seq<string>) {
    forall i, j :: 0 <= i < |segments| && 0 < j < |segments[i]| ==> segments[i][j] != ':'
  }

  predicate SegmentFits(pattern: string, segment: string) {
    if |pattern| > 1 && pattern[0] == ':' then segment != "" else segment == pattern
  }

  predicate SegmentsFit(patterns: seq<string>, segments: seq<string>) {
    |patterns| == |segments| && forall i :: 0 <= i < |patterns| ==> SegmentFits(patterns[i], segments[i])
  }

  /** Matching letter by letter over the text before the next slash. */
  lemma {:induction false} LiteralSegment(head: string, rest: string, path: string)
    requires ':' !in head && (rest == "" || rest[0] == '/') && '/' !in head
    ensures Matches(head + rest, path) <==> head <= path && Matches(rest, path[|head|..])
  {
    if head == "" {
      assert head + rest == rest && path[0..] == path;
    } else {
      assert (head + rest)[1..] == head[1..] + rest && (head + rest)[0] == head[0];
      if path != "" {
        LiteralSegment(head[1..], rest, path[1..]);
        assert head <= path <==> head[0] == path[0] && head[1..] <= path[1..];
        if head <= path {
          assert path[1..][|head| - 1..] == path[|head|..];
        }
      }
    }
  }

  lemma NameSegment(name: string, rest: string, path: string)
    requires |name| > 1 && name[0] == ':' && '/' !in name && (rest == "" || rest[0] == '/')
    ensures Matches(name + rest, path) <==> Run(path) > 0 && Matches(rest, path[Run(path)..])
  {
    var pattern := name + rest;
    assert pattern[1..] == name[1..] + rest;
    RunUpTo(name[1..], rest);
    assert pattern[1 + |name[1..]|..] == rest;
    assert pattern[1] == name[1] && name[1] in name;
  }

  lemma {:induction false} RunUpTo(head: string, rest: string)
    requires '/' !in head && (rest == "" || rest[0] == '/')
    ensures Run(head + rest) == |head|
  {
    if head != "" {
      assert (head + rest)[1..] == head[1..] + rest;
      RunUpTo(head[1..], rest);
    } else {
      assert head + rest == rest;
    }
  }

  lemma LoneColon(rest: string, path: string)
    requires rest == "" || rest[0] == '/'
    ensures Matches(":" + rest, path) <==> ":" <= path && Matches(rest, path[|":"|..])
  {
    assert (":" + rest)[1..] == rest;
  }

  lemma SplitAtRun(s: string)
    ensures var head, rest := s[..Run(s)], s[Run(s)..];
            s == head + rest && '/' !in head && (rest == "" || rest[0] == '/')
  {
  }

  lemma SlashStep(rest: string, tail: string)
    requires rest != "" && rest[0] == '/'
    ensures Matches(rest, tail) <==> tail != "" && tail[0] == '/' && Matches(rest[1..], tail[1..])
  {
  }

  /** One segment of a pattern against the text before the next slash, and the rest against the rest. */
  lemma SegmentStep(head: string, rest: string, path: string)
    requires '/' !in head && (rest == "" || rest[0] == '/') && forall j :: 0 < j < |head| ==> head[j] != ':'
    ensures Matches(head + rest, path) <==> SegmentFits(head, path[..Run(path)]) && Matches(rest, path[Run(path)..])
  {
    hide Matches, Run;
    if |head| > 1 && head[0] == ':' {
      NameSegment(head, rest, path);
    } else {
      if head == ":" {
        LoneColon(rest, path);
      } else {
        assert ':' !in head;
        LiteralSegment(head, rest, path);
      }
      RestStarts(rest, path, head);
    }
  }

  lemma RestStarts(rest: string, path: string, head: string)
    requires '/' !in head && (rest == "" || rest[0] == '/')
    ensures head <= path && Matches(rest, path[|head|..])
       <==> path[..Run(path)] == head && Matches(rest, path[Run(path)..])
  {
    if head <= path && Matches(rest, path[|head|..]) {
      var tail := path[|head|..];
      assert tail == "" || tail[0] == '/';
      assert path == head + tail;
      RunUpTo(head, tail);
    }
  }

  /** A pattern matches exactly the paths whose segments fit, one by one. */
  lemma {:induction false} MatchesIff(pattern: string, path: string)
    requires WellFormed(Segments(pattern))
    ensures Matches(pattern, path) <==> SegmentsFit(Segments(pattern), Segments(path))
    decreases |pattern|
  {
    hide Matches, SegmentFits, SegmentsFit, Segments;
    var head, rest := pattern[..Run(pattern)], pattern[Run(pattern)..];
    var first, tail := path[..Run(path)], path[Run(path)..];
    SplitAtRun(pattern);
    SplitAtRun(path);
    FirstSegment(pattern);
    FirstSegment(path);
    MoreSegments(pattern);
    MoreSegments(path);
    SegmentStep(head, rest, path);
    if rest == "" {
      NothingLeft(tail);
      OneFits(Segments(pattern), Segments(path));
    } else {
      SlashStep(rest, tail);
      var patterns := Segments(rest[1..]);
      assert rest[1..] == pattern[Run(pattern) + 1..];
      LaterWellFormed(head, patterns);
      if tail == "" {
        LengthsDiffer(Segments(pattern), Segments(path));
      } else {
        assert tail[1..] == path[Run(path) + 1..];
        MatchesIff(rest[1..], tail[1..]);
        FitStep(head, patterns, first, Segments(tail[1..]));
      }
    }
  }

  lemma OneFits(patterns: seq<string>, segments: seq<string>)
    requires |patterns| == 1 && segments != []
    ensures SegmentsFit(patterns, segments) <==> |segments| == 1 && SegmentFits(patterns[0], segments[0])
  {
    hide SegmentFits;
  }

  lemma LengthsDiffer(patterns: seq<string>, segments: seq<string>)
    requires |patterns| != |segments|
    ensures !SegmentsFit(patterns, segments)
  {
  }

  lemma LaterWellFormed(head: string, patterns: seq<string>)
    requires WellFormed([head] + patterns)
    ensures WellFormed(patterns)
  {
    assert forall i :: 0 <= i < |patterns| ==> patterns[i] == ([head] + patterns)[i + 1];
  }

  lemma FirstSegment(s: string)
    ensures Segments(s)[0] == s[..Run(s)]
  {
    if Run(s) == |s| {
      assert s[..Run(s)] == s;
    }
  }

  lemma MoreSegments(s: string)
    ensures |Segments(s)| == 1 <==> s[Run(s)..] == ""
    ensures s[Run(s)..] != "" ==> Segments(s) == [s[..Run(s)]] + Segments(s[Run(s) + 1..])
  {
  }

  lemma NothingLeft(tail: string)
    ensures Matches("", tail) <==> tail == ""
  {
  }

  lemma FitStep(p: string, ps: seq<string>, s: string, ss: seq<string>)
    ensures SegmentsFit([p] + ps, [s] + ss) <==> SegmentFits(p, s) && SegmentsFit(ps, ss)
  {
    hide SegmentFits;
    var patterns, segments := [p] + ps, [s] + ss;
    if SegmentsFit(patterns, segments) {
      assert SegmentFits(patterns[0], segments[0]);
      forall i | 0 <= i < |ps|
        ensures SegmentFits(ps[i], ss[i])
      {
        assert SegmentFits(patterns[i + 1], segments[i + 1]);
      }
    }
  }
}
