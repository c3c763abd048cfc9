/**
 Route lookup of src/app/routeRegistry.tsx over an arbitrary registry, and entity paths of
 src/components/business/businessEntityRoutes.ts.
 */
module Routes {
  import opened Wrappers
  import opened PercentEncoding

  datatype Route = Route(
    id: string,
    path: string,
    moduleId: string,
    parentId: string,
    legacyIds: seq<string>,
    showInBreadcrumb: bool)

  type Registry = seq<Route>

  function StripSlashes(s: string): string {
    if s != "" && s[|s| - 1] == '/' then StripSlashes(s[..|s| - 1]) else s
  }

  function NormalizePath(value: string): string {
    if |value| > 1 then StripSlashes(value) else value
  }

  /** Length of the text up to the first slash. */
  function Run(s: string): (n: nat)
    ensures n <= |s|
    ensures forall i :: 0 <= i < n ==> s[i] != '/'
    ensures n < |s| ==> s[n] == '/'
  {
    if s == "" || s[0] == '/' then 0 else 1 + Run(s[1..])
  }

  predicate IsParam(pattern: string) {
    |pattern| > 1 && pattern[0] == ':' && pattern[1] != '/'
  }

  /** The test of the expression that a route path turns into: `:name` matches one non-empty segment. */
  predicate Matches(pattern: string, path: string)
    decreases |pattern|
  {
    if pattern == "" then path == ""
    else if IsParam(pattern) then
      Run(path) > 0 && Matches(pattern[1 + Run(pattern[1..])..], path[Run(path)..])
    else path != "" && path[0] == pattern[0] && Matches(pattern[1..], path[1..])
  }

  function FindPath(registry: Registry, path: string): Option<Route> {
    if registry == [] then None
    else if registry[0].path == path then Some(registry[0])
    else FindPath(registry[1..], path)
  }

  predicate Parametric(r: Route) {
    ':' in r.path
  }

  function FindPattern(registry: Registry, path: string): Option<Route> {
    if registry == [] then None
    else if Parametric(registry[0]) && Matches(registry[0].path, path) then Some(registry[0])
    else FindPattern(registry[1..], path)
  }

  function RouteByPath(registry: Registry, pathname: string): Option<Route> {
    var path := NormalizePath(pathname);
    var exact := FindPath(registry, path);
    if exact.Some? then exact else FindPattern(registry, path)
  }

  function FindId(registry: Registry, id: string): Option<Route> {
    if registry == [] then None
    else if registry[0].id == id then Some(registry[0])
    else FindId(registry[1..], id)
  }

  function FindLegacyId(registry: Registry, id: string): Option<Route> {
    if registry == [] then None
    else if id in registry[0].legacyIds then Some(registry[0])
    else FindLegacyId(registry[1..], id)
  }

  function RouteById(registry: Registry, id: string): Option<Route> {
    var current := FindId(registry, id);
    if current.Some? then current else FindLegacyId(registry, id)
  }

  // ----- entity paths

  /** `template.replace(":id", value)`: the first occurrence only. */
  function ReplaceId(template: string, value: string): string {
    if template == "" then ""
    else if ":id" <= template then value + template[3..]
    else [template[0]] + ReplaceId(template[1..], value)
  }

  function EntityPath(template: string, id: string): string {
    ReplaceId(template, Encode(id))
  }

  /** The text after the last slash. */
  function AfterLastSlash(s: string): string {
    if '/' !in s then s else AfterLastSlash(s[Run(s) + 1..])
  }

  /** `pathname.split("/").filter(Boolean).at(-1) || ""` */
  function LastSegment(pathname: string): string {
    AfterLastSlash(StripSlashes(pathname))
  }

  // ----- matching

  function Slashes(s: string): nat {
    if s == "" then 0 else (if s[0] == '/' then 1 else 0) + Slashes(s[1..])
  }

  /** The part of a pattern before its first colon. */
  function LiteralHead(pattern: string): string {
    if pattern == "" || pattern[0] == ':' then "" else [pattern[0]] + LiteralHead(pattern[1..])
  }

  lemma {:induction false} SlashesAfterRun(s: string, n: nat)
    requires n <= |s| && forall i :: 0 <= i < n ==> s[i] != '/'
    ensures Slashes(s[n..]) == Slashes(s)
  {
    if n == 0 {
      assert s[0..] == s;
    } else {
      SlashesAfterRun(s[1..], n - 1);
      assert s[1..][n - 1..] == s[n..];
    }
  }

  lemma {:induction false} MatchKeepsSlashes(pattern: string, path: string)
    requires Matches(pattern, path)
    ensures Slashes(pattern) == Slashes(path)
    decreases |pattern|
  {
    if pattern == "" {
    } else if IsParam(pattern) {
      var n := 1 + Run(pattern[1..]);
      assert forall i :: 1 <= i < n ==> pattern[i] == pattern[1..][i - 1];
      SlashesAfterRun(pattern, n);
      SlashesAfterRun(path, Run(path));
      MatchKeepsSlashes(pattern[n..], path[Run(path)..]);
    } else {
      MatchKeepsSlashes(pattern[1..], path[1..]);
    }
  }

  lemma {:induction false} MatchStartsWithHead(pattern: string, path: string)
    requires Matches(pattern, path)
    ensures LiteralHead(pattern) <= path
    decreases |pattern|
  {
    if pattern != "" && pattern[0] != ':' {
      MatchStartsWithHead(pattern[1..], path[1..]);
      assert path == [path[0]] + path[1..];
    }
  }

  predicate SegmentText(x: string) {
    x != "" && '/' !in x
  }

  predicate Base(base: string) {
    base != "" && ':' !in base && base[|base| - 1] != '/'
  }

  lemma RunOfSegment(x: string)
    requires '/' !in x
    ensures Run(x) == |x|
  {
    if Run(x) < |x| {
      assert x[Run(x)] == '/';
    }
  }

  /** Below its base a detail pattern matches exactly one more segment. */
  lemma {:induction false} DetailMatches(base: string, x: string)
    requires ':' !in base
    ensures Matches(base + "/:id", base + "/" + x) <==> SegmentText(x)
  {
    var pattern, path := base + "/:id", base + "/" + x;
    if base == "" {
      assert pattern == "/:id" && pattern[1..] == ":id" && path[1..] == x;
      assert ":id"[1..] == "id" && Run("id") == 2 by {
        RunOfSegment("id");
      }
      assert ":id"[1 + 2..] == "";
      assert Matches(":id", x) <==> Run(x) > 0 && x[Run(x)..] == "";
      if '/' !in x {
        RunOfSegment(x);
      }
    } else {
      assert pattern[1..] == base[1..] + "/:id" && path[1..] == base[1..] + "/" + x;
      assert pattern[0] == base[0] && path[0] == base[0];
      DetailMatches(base[1..], x);
    }
  }

  lemma {:induction false} HeadOfDetail(base: string)
    requires ':' !in base
    ensures LiteralHead(base + "/:id") == base + "/"
  {
    var pattern := base + "/:id";
    if base == "" {
      assert pattern[1..] == ":id";
    } else {
      assert pattern[1..] == base[1..] + "/:id" && pattern[0] == base[0];
      HeadOfDetail(base[1..]);
    }
  }

  /** One segment, and which one, below the base. */
  predicate OneBelow(base: string, path: string, x: string) {
    SegmentText(x) && path == base + "/" + x
  }

  /** Of all paths a detail pattern matches exactly those with one more segment than its base. */
  lemma DetailMatchesIff(base: string, path: string)
    requires ':' !in base
    ensures Matches(base + "/:id", path) <==> exists x :: OneBelow(base, path, x)
  {
    hide Matches, LiteralHead;
    if Matches(base + "/:id", path) {
      MatchStartsWithHead(base + "/:id", path);
      HeadOfDetail(base);
      var x := path[|base| + 1..];
      assert path == base + "/" + x;
      DetailMatches(base, x);
      assert OneBelow(base, path, x);
    }
    if x :| OneBelow(base, path, x) {
      DetailMatches(base, x);
    }
  }

  lemma {:induction false} ReplaceInDetail(base: string, value: string)
    requires ':' !in base
    ensures ReplaceId(base + "/:id", value) == base + "/" + value
  {
    var template := base + "/:id";
    if base == "" {
      assert template == "/:id" && template[1..] == ":id" && ":id"[3..] == "";
      assert ReplaceId(":id", value) == value + "";
      assert value + "" == value;
      assert template[0] == '/' && ":id"[0] == ':';
      assert ReplaceId(template, value) == [template[0]] + ReplaceId(template[1..], value);
      assert base + "/" + value == "/" + value && base + "/:id" == "/:id";
    } else {
      assert template[0] == base[0];
      assert template[1..] == base[1..] + "/:id";
      ReplaceInDetail(base[1..], value);
      assert [base[0]] + (base[1..] + "/" + value) == base + "/" + value;
    }
  }

  lemma {:induction false} SlashesConcat(a: string, b: string)
    ensures Slashes(a + b) == Slashes(a) + Slashes(b)
  {
    if a == "" {
      assert a + b == b;
    } else {
      assert (a + b)[1..] == a[1..] + b;
      SlashesConcat(a[1..], b);
    }
  }

  lemma {:induction false} NoSlashes(x: string)
    requires '/' !in x
    ensures Slashes(x) == 0
  {
    if x != "" {
      assert forall c :: c in x[1..] ==> c in x;
      NoSlashes(x[1..]);
    }
  }

  // ----- the round trip

  /** A pattern that cannot match any path one segment below the base. */
  predicate Elsewhere(pattern: string, base: string) {
    || Slashes(pattern) != Slashes(base) + 1
    || !(LiteralHead(pattern) <= base + "/" || base + "/" <= LiteralHead(pattern))
  }

  lemma ElsewhereDoesNotMatch(pattern: string, base: string, x: string)
    requires SegmentText(x) && Elsewhere(pattern, base)
    ensures !Matches(pattern, base + "/" + x)
  {
    var path := base + "/" + x;
    if Matches(pattern, path) {
      MatchKeepsSlashes(pattern, path);
      MatchStartsWithHead(pattern, path);
      SlashesConcat(base + "/", x);
      SlashesConcat(base, "/");
      NoSlashes(x);
      assert Slashes("/") == 1;
      PrefixesCompare(LiteralHead(pattern), base + "/", path);
    }
  }

  lemma PrefixesCompare(a: string, b: string, s: string)
    requires a <= s && b <= s
    ensures a <= b || b <= a
  {
  }

  /** The registry has one detail route with this path, and no other pattern reaches below its base. */
  predicate DetailRegistered(registry: Registry, r: Route, base: string) {
    && Base(base) && r in registry && r.path == base + "/:id"
    && forall i :: 0 <= i < |registry| && Parametric(registry[i]) && registry[i] != r ==>
         Elsewhere(registry[i].path, base)
  }

  predicate LiteralPath(registry: Registry, path: string) {
    exists i :: 0 <= i < |registry| && registry[i].path == path
  }

  lemma {:induction false} FindPathIff(registry: Registry, path: string)
    ensures FindPath(registry, path).Some? <==> LiteralPath(registry, path)
    ensures FindPath(registry, path).Some? ==> FindPath(registry, path).value.path == path
  {
    if registry != [] {
      FindPathIff(registry[1..], path);
      assert registry == [registry[0]] + registry[1..];
    }
  }

  lemma {:induction false} FindPatternIsOnly(registry: Registry, r: Route, path: string)
    requires r in registry && Parametric(r) && Matches(r.path, path)
    requires forall i :: 0 <= i < |registry| && Parametric(registry[i]) && registry[i] != r ==>
               !Matches(registry[i].path, path)
    ensures FindPattern(registry, path) == Some(r)
  {
    if registry[0] != r {
      assert forall i :: 0 <= i < |registry[1..]| ==> registry[1..][i] == registry[i + 1];
      FindPatternIsOnly(registry[1..], r, path);
    }
  }

  lemma NoTrailingSlash(base: string, x: string)
    requires Base(base) && '/' !in x
    ensures NormalizePath(base + "/" + x) == if x == "" then base else base + "/" + x
    ensures StripSlashes(base + "/" + x) == if x == "" then base else base + "/" + x
  {
    var path := base + "/" + x;
    if x == "" {
      assert path[..|path| - 1] == base;
      assert StripSlashes(path) == StripSlashes(base) == base;
    } else {
      assert path[|path| - 1] == x[|x| - 1];
      assert x[|x| - 1] in x;
    }
  }

  lemma SiblingIsNotPattern(base: string, x: string)
    requires PathSafe(x)
    ensures base + "/" + x != base + "/:id"
  {
    assert (base + "/:id")[|base| + 1] == ':';
    if x != "" {
      assert (base + "/" + x)[|base| + 1] == x[0];
    }
  }

  lemma DetailIsFound(registry: Registry, r: Route, base: string, x: string)
    requires DetailRegistered(registry, r, base) && SegmentText(x)
    requires !LiteralPath(registry, base + "/" + x)
    ensures RouteByPath(registry, base + "/" + x) == Some(r)
  {
    hide Elsewhere, Matches, NormalizePath;
    var path := base + "/" + x;
    NoTrailingSlash(base, x);
    FindPathIff(registry, path);
    assert r.path[|base| + 1] == ':';
    DetailMatches(base, x);
    forall i | 0 <= i < |registry| && Parametric(registry[i]) && registry[i] != r
      ensures !Matches(registry[i].path, path)
    {
      ElsewhereDoesNotMatch(registry[i].path, base, x);
    }
    FindPatternIsOnly(registry, r, path);
  }

  /**
   Looking up an entity's path finds its detail route if and only if the id is not empty and its
   encoding is not a registered sibling such as "new".
   */
  lemma EntityPathFindsDetailIff(registry: Registry, r: Route, base: string, id: string)
    requires DetailRegistered(registry, r, base)
    ensures RouteByPath(registry, EntityPath(r.path, id)) == Some(r)
       <==> id != "" && !LiteralPath(registry, base + "/" + Encode(id))
  {
    hide Elsewhere, Matches, NormalizePath, ReplaceId, Encode, LiteralPath;
    var x := Encode(id);
    EncodedIsPathSafe(id);
    ReplaceInDetail(base, x);
    if id == "" {
      assert base + "/" + "" == base + "/";
      BaseIsNotDetail(registry, r, base);
    } else if LiteralPath(registry, base + "/" + x) {
      NoTrailingSlash(base, x);
      FindPathIff(registry, base + "/" + x);
      SiblingIsNotPattern(base, x);
    } else {
      DetailIsFound(registry, r, base, x);
    }
  }

  lemma BaseIsNotDetail(registry: Registry, r: Route, base: string)
    requires Base(base) && r.path == base + "/:id"
    ensures RouteByPath(registry, base + "/") != Some(r)
  {
    assert base + "/" + "" == base + "/";
    NoTrailingSlash(base, "");
    FindPathIff(registry, base);
    FindPatternMatches(registry, base);
    SlashesConcat(base, "/:id");
    assert Slashes("/:id") == 1 + Slashes("/:id"[1..]);
    if Matches(r.path, base) {
      MatchKeepsSlashes(r.path, base);
    }
  }

  lemma {:induction false} FindPatternMatches(registry: Registry, path: string)
    ensures FindPattern(registry, path).Some? ==> Matches(FindPattern(registry, path).value.path, path)
  {
    if registry != [] {
      FindPatternMatches(registry[1..], path);
    }
  }

  lemma {:induction false} AfterLastSlashOfJoin(base: string, x: string)
    requires '/' !in x
    ensures AfterLastSlash(base + "/" + x) == x
    decreases |base|
  {
    var path := base + "/" + x;
    assert path[|base|] == '/';
    var n := Run(path);
    assert n <= |base|;
    if n == |base| {
      assert path[n + 1..] == x;
    } else {
      assert path[n + 1..] == base[n + 1..] + "/" + x;
      AfterLastSlashOfJoin(base[n + 1..], x);
    }
  }

  /** Decoding the last segment of an entity's path gives the id back. */
  lemma EntityPathKeepsId(base: string, id: string)
    requires Base(base) && id != ""
    ensures Decode(LastSegment(EntityPath(base + "/:id", id))) == Some(id)
  {
    var x := Encode(id);
    EncodedIsPathSafe(id);
    ReplaceInDetail(base, x);
    NoTrailingSlash(base, x);
    AfterLastSlashOfJoin(base, x);
    DecodeUndoesEncode(id);
  }
}
