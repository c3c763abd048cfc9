/** The recent-pages list of src/components/navigation/RecentPages.tsx: its visit step and its close step. */
module RecentPages {
  const MAX_RECENT := 8

  datatype Page = Page(routeId: string, path: string, caption: string)

  function Without(pages: seq<Page>, id: string): seq<Page> {
    if pages == [] then []
    else if pages[0].routeId == id then Without(pages[1..], id)
    else [pages[0]] + Without(pages[1..], id)
  }

  /** `slice(-MAX_RECENT)` */
  function LastFew(pages: seq<Page>): (r: seq<Page>)
    ensures |r| <= MAX_RECENT
  {
    if |pages| <= MAX_RECENT then pages else pages[|pages| - MAX_RECENT..]
  }

  function MoveToEnd(pages: seq<Page>, page: Page): seq<Page> {
    Without(pages, page.routeId) + [page]
  }

  datatype Event = Visited(page: Page) | Closed(id: string) {
    function Id(): string {
      if Visited? then page.routeId else id
    }
  }

  /** The component's own steps: a visit cuts to the last eight, a close does not cut. */
  function CutStep(pages: seq<Page>, e: Event): seq<Page> {
    match e
    case Visited(page) => LastFew(MoveToEnd(pages, page))
    case Closed(id) => Without(pages, id)
  }

  /** The pages whose route id the registry knows. */
  function Visible(pages: seq<Page>, known: set<string>): seq<Page> {
    if pages == [] then []
    else if pages[0].routeId in known then [pages[0]] + Visible(pages[1..], known)
    else Visible(pages[1..], known)
  }

  /** The stored pages that still match a registered route by id and path. */
  function Registered(pages: seq<Page>, routes: set<(string, string)>): seq<Page> {
    if pages == [] then []
    else if (pages[0].routeId, pages[0].path) in routes then [pages[0]] + Registered(pages[1..], routes)
    else Registered(pages[1..], routes)
  }

  predicate DistinctIds(pages: seq<Page>) {
    forall i, j :: 0 <= i < j < |pages| ==> pages[i].routeId != pages[j].routeId
  }

  predicate AllRegistered(pages: seq<Page>, routes: set<(string, string)>) {
    forall i :: 0 <= i < |pages| ==> (pages[i].routeId, pages[i].path) in routes
  }

  function IdsOf(routes: set<(string, string)>): set<string> {
    set r | r in routes :: r.0
  }

  class RecentList {
    const routes: set<(string, string)>
    var pages: seq<Page>
    var stored: seq<Page>

    ghost predicate Valid()
      reads this
    {
      |pages| <= MAX_RECENT && AllRegistered(pages, routes)
    }

    /** What a fresh mount reads back from storage. */
    constructor (routes: set<(string, string)>, stored: seq<Page>)
      ensures DistinctIds(stored) ==> DistinctIds(pages)
      ensures Valid() && this.routes == routes && this.stored == stored
      ensures pages == LastFew(Registered(stored, routes))
    {
      this.routes := routes;
      this.stored := stored;
      this.pages := LastFew(Registered(stored, routes));
      RegisteredIsPart(stored, routes);
    }

    /** The effect that runs when the current route changes; create and edit pages are not recorded. */
    method Visit(page: Page, isForm: bool)
      requires Valid() && (page.routeId, page.path) in routes
      modifies this
      ensures Valid() && (DistinctIds(old(pages)) ==> DistinctIds(pages))
      ensures isForm ==> pages == old(pages) && stored == old(stored)
      ensures !isForm ==> pages == CutStep(old(pages), Visited(page)) && stored == pages
    {
      if isForm {
        return;
      }
      hide Without;
      var next := LastFew(Without(pages, page.routeId) + [page]);
      MoveToEndKeeps(pages, page, routes);
      stored := next;
      pages := next;
    }

    method Close(item: Page)
      requires Valid()
      modifies this
      ensures Valid() && (DistinctIds(old(pages)) ==> DistinctIds(pages))
      ensures pages == CutStep(old(pages), Closed(item.routeId)) && stored == pages
    {
      var next := Without(Visible(pages, IdsOf(routes)), item.routeId);
      AllVisible(pages, routes);
      WithoutKeeps(pages, item.routeId, routes);
      pages := next;
      stored := next;
    }
  }

  lemma {:induction false} RegisteredIsPart(pages: seq<Page>, routes: set<(string, string)>)
    ensures forall p :: p in Registered(pages, routes) ==> p in pages && (p.routeId, p.path) in routes
    ensures DistinctIds(pages) ==> DistinctIds(Registered(pages, routes))
  {
    if pages != [] {
      RegisteredIsPart(pages[1..], routes);
    }
  }

  /** Every stored page is kept or dropped by itself, and the kept ones stay in order. */
  lemma {:induction false} RegisteredPageByPage(a: seq<Page>, b: seq<Page>, p: Page, routes: set<(string, string)>)
    ensures Registered(a + b, routes) == Registered(a, routes) + Registered(b, routes)
    ensures Registered([p], routes) == if (p.routeId, p.path) in routes then [p] else []
  {
    if a == [] {
      assert a + b == b;
      assert [p][1..] == [];
    } else {
      RegisteredPageByPage(a[1..], b, p, routes);
      assert (a + b)[1..] == a[1..] + b;
    }
  }

  /** All pages up to eight, and of more the last eight. */
  lemma LastFewMeans(pages: seq<Page>, older: seq<Page>)
    ensures |pages| <= 8 ==> LastFew(pages) == pages
    ensures |pages| == 8 ==> LastFew(older + pages) == pages
  {
    assert (older + pages)[|older|..] == pages;
  }

  lemma {:induction false} AllVisible(pages: seq<Page>, routes: set<(string, string)>)
    requires AllRegistered(pages, routes)
    ensures Visible(pages, IdsOf(routes)) == pages
  {
    if pages != [] {
      assert (pages[0].routeId, pages[0].path) in routes;
      AllVisible(pages[1..], routes);
    }
  }

  predicate Absent(pages: seq<Page>, id: string) {
    forall i :: 0 <= i < |pages| ==> pages[i].routeId != id
  }

  lemma {:induction false} WithoutAbsent(pages: seq<Page>, id: string, other: string)
    ensures Absent(Without(pages, id), id)
    ensures Absent(pages, other) ==> Absent(Without(pages, id), other)
    ensures Absent(pages, id) ==> Without(pages, id) == pages
  {
    if pages != [] {
      WithoutAbsent(pages[1..], id, other);
    }
  }

  /** Taking an id out keeps ids distinct and routes registered, and takes out one page at most. */
  lemma {:induction false} WithoutKeeps(pages: seq<Page>, id: string, routes: set<(string, string)>)
    ensures |Without(pages, id)| <= |pages|
    ensures DistinctIds(pages) ==> DistinctIds(Without(pages, id)) && |pages| - 1 <= |Without(pages, id)|
    ensures AllRegistered(pages, routes) ==> AllRegistered(Without(pages, id), routes)
  {
    if pages != [] {
      var first, rest := pages[0], pages[1..];
      WithoutKeeps(rest, id, routes);
      assert DistinctIds(pages) ==> Absent(rest, first.routeId);
      WithoutAbsent(rest, id, first.routeId);
    }
  }

  lemma MoveToEndKeeps(pages: seq<Page>, page: Page, routes: set<(string, string)>)
    ensures DistinctIds(pages) ==>
              && DistinctIds(MoveToEnd(pages, page)) && DistinctIds(LastFew(MoveToEnd(pages, page)))
              && |pages| <= |MoveToEnd(pages, page)| <= |pages| + 1
    ensures AllRegistered(pages, routes) && (page.routeId, page.path) in routes ==>
              AllRegistered(LastFew(MoveToEnd(pages, page)), routes)
  {
    hide Without;
    WithoutKeeps(pages, page.routeId, routes);
    WithoutAbsent(pages, page.routeId, page.routeId);
  }

  /** What was stored is what a fresh mount shows: nothing is filtered out or cut off. */
  lemma ReloadRestores(pages: seq<Page>, routes: set<(string, string)>)
    requires |pages| <= MAX_RECENT && AllRegistered(pages, routes)
    ensures LastFew(Registered(pages, routes)) == pages
  {
    AllAreRegistered(pages, routes);
  }

  lemma {:induction false} AllAreRegistered(pages: seq<Page>, routes: set<(string, string)>)
    requires AllRegistered(pages, routes)
    ensures Registered(pages, routes) == pages
  {
    if pages != [] {
      AllAreRegistered(pages[1..], routes);
    }
  }

  // ----- whole runs

  function Step(pages: seq<Page>, e: Event): seq<Page> {
    match e
    case Visited(page) => MoveToEnd(pages, page)
    case Closed(id) => Without(pages, id)
  }

  /** The list without the bound, after a run of events from the empty list. */
  function Unbounded(events: seq<Event>): seq<Page> {
    if events == [] then [] else Step(Unbounded(events[..|events| - 1]), events[|events| - 1])
  }

  /** The list as the component keeps it. */
  function Bounded(events: seq<Event>): seq<Page> {
    if events == [] then [] else CutStep(Bounded(events[..|events| - 1]), events[|events| - 1])
  }

  lemma CutStepIsCut(pages: seq<Page>, e: Event)
    requires |pages| <= MAX_RECENT
    ensures CutStep(pages, e) == LastFew(Step(pages, e))
  {
    WithoutKeeps(pages, e.Id(), {});
  }

  /** The visits no later event concerns, in order: what "recent pages" means, with no list to update. */
  function LastVisits(events: seq<Event>): seq<Page> {
    if events == [] then []
    else if events[0].Visited? && Unmentioned(events[1..], events[0].Id()) then
      [events[0].page] + LastVisits(events[1..])
    else LastVisits(events[1..])
  }

  predicate Suffix(b: seq<Page>, u: seq<Page>) {
    |b| <= |u| && u == u[..|u| - |b|] + b
  }

  lemma {:induction false} WithoutConcat(a: seq<Page>, b: seq<Page>, id: string)
    ensures Without(a + b, id) == Without(a, id) + Without(b, id)
  {
    if a == [] {
      assert a + b == b;
    } else {
      assert (a + b)[1..] == a[1..] + b;
      WithoutConcat(a[1..], b, id);
    }
  }

  lemma LastFewIsSuffix(a: seq<Page>, b: seq<Page>)
    ensures Suffix(LastFew(b), a + b)
  {
    var cut := |b| - |LastFew(b)|;
    assert b == b[..cut] + LastFew(b);
    assert (a + b)[..|a| + cut] == a + b[..cut];
    assert a + b == a + b[..cut] + LastFew(b);
  }

  lemma StepKeepsSuffix(b: seq<Page>, u: seq<Page>, e: Event)
    requires Suffix(b, u)
    ensures Suffix(LastFew(Step(b, e)), Step(u, e))
  {
    hide Without, LastFew, Suffix;
    var a := Prefix(b, u);
    WithoutConcat(a, b, e.Id());
    LastFewIsSuffix(Without(a, e.Id()), Step(b, e));
    assert Step(u, e) == Without(a, e.Id()) + Step(b, e);
  }

  lemma Prefix(b: seq<Page>, u: seq<Page>) returns (a: seq<Page>)
    requires Suffix(b, u)
    ensures u == a + b
  {
    a := u[..|u| - |b|];
  }

  predicate Unmentioned(events: seq<Event>, id: string) {
    forall i :: 0 <= i < |events| ==> events[i].Id() != id
  }

  lemma UnmentionedStep(events: seq<Event>, e: Event, id: string)
    ensures Unmentioned(events + [e], id) <==> Unmentioned(events, id) && e.Id() != id
  {
    var longer := events + [e];
    assert forall i :: 0 <= i < |events| ==> longer[i] == events[i];
    assert longer[|events|] == e;
  }

  lemma {:induction false} StepOnLastVisits(events: seq<Event>, e: Event)
    ensures LastVisits(events + [e]) == Step(LastVisits(events), e)
  {
    hide Unmentioned;
    if events == [] {
      assert (events + [e])[1..] == [];
      NothingMentioned(e.Id());
    } else {
      assert (events + [e])[1..] == events[1..] + [e];
      StepOnLastVisits(events[1..], e);
      var first := events[0];
      UnmentionedStep(events[1..], e, first.Id());
      if first.Visited? && Unmentioned(events[1..], first.Id()) {
        var rest := LastVisits(events[1..]);
        assert Without([first.page] + rest, e.Id())
            == (if first.Id() == e.Id() then [] else [first.page]) + Without(rest, e.Id()) by {
          assert ([first.page] + rest)[1..] == rest;
        }
      }
    }
  }

  lemma NothingMentioned(id: string)
    ensures Unmentioned([], id)
  {
  }

  lemma StepKeepsDistinct(pages: seq<Page>, e: Event)
    requires DistinctIds(pages)
    ensures DistinctIds(Step(pages, e))
    ensures e.Visited? ==> |pages| <= |Step(pages, e)| <= |pages| + 1
  {
    WithoutKeeps(pages, e.Id(), {});
    if e.Visited? {
      MoveToEndKeeps(pages, e.page, {});
    }
  }

  /** The unbounded list is exactly the last visits; its ids are distinct. */
  lemma {:induction false} UnboundedIsLastVisits(events: seq<Event>)
    ensures Unbounded(events) == LastVisits(events)
    ensures DistinctIds(Unbounded(events))
  {
    if events != [] {
      var n := |events| - 1;
      UnboundedIsLastVisits(events[..n]);
      assert events == events[..n] + [events[n]];
      StepOnLastVisits(events[..n], events[n]);
      StepKeepsDistinct(Unbounded(events[..n]), events[n]);
    }
  }

  /** After every run, closes included: at most eight distinct pages, a suffix of the last visits. */
  lemma {:induction false} BoundedIsSuffix(events: seq<Event>)
    ensures Suffix(Bounded(events), LastVisits(events))
    ensures |Bounded(events)| <= MAX_RECENT && DistinctIds(Bounded(events))
  {
    UnboundedIsLastVisits(events);
    if events != [] {
      var n := |events| - 1;
      BoundedIsSuffix(events[..n]);
      UnboundedIsLastVisits(events[..n]);
      StepKeepsSuffix(Bounded(events[..n]), Unbounded(events[..n]), events[n]);
      CutStepIsCut(Bounded(events[..n]), events[n]);
    }
  }

  lemma SuffixOfLength(b: seq<Page>, u: seq<Page>)
    requires Suffix(b, u) && |b| == |LastFew(u)|
    ensures b == LastFew(u)
  {
  }

  predicate OnlyVisits(events: seq<Event>) {
    forall i :: 0 <= i < |events| ==> events[i].Visited?
  }

  /** Without closes, cutting after every visit shows the last eight of all last visits. */
  lemma {:induction false} BoundedVisits(events: seq<Event>)
    requires OnlyVisits(events)
    ensures Bounded(events) == LastFew(LastVisits(events))
  {
    hide Step, Suffix, LastVisits, DistinctIds;
    UnboundedIsLastVisits(events);
    if events != [] {
      var n := |events| - 1;
      BoundedVisits(events[..n]);
      BoundedIsSuffix(events);
      BoundedIsSuffix(events[..n]);
      UnboundedIsLastVisits(events[..n]);
      var u, b := Unbounded(events[..n]), Bounded(events[..n]);
      StepKeepsDistinct(u, events[n]);
      StepKeepsDistinct(b, events[n]);
      CutStepIsCut(b, events[n]);
      SuffixOfLength(Bounded(events), Unbounded(events));
    }
  }

  // ----- exactly which pages are kept when some are closed

  /** The last eight of the last visits after the first t events. */
  function RecentAt(events: seq<Event>, t: nat): seq<Page>
    requires t <= |events|
  {
    LastFew(LastVisits(events[..t]))
  }

  /** Event j visits the page, and the page has been among the last eight ever since. */
  predicate RecentSince(events: seq<Event>, p: Page, j: nat) {
    && j < |events| && events[j] == Visited(p)
    && forall t :: j < t <= |events| ==> p in RecentAt(events, t)
  }

  ghost predicate NeverLeft(events: seq<Event>, p: Page) {
    exists j: nat :: RecentSince(events, p, j)
  }

  lemma RecentAtPrefix(events: seq<Event>, n: nat, t: nat)
    requires t <= n <= |events|
    ensures RecentAt(events[..n], t) == RecentAt(events, t)
  {
    assert events[..n][..t] == events[..t];
  }

  lemma SuffixIsRecent(b: seq<Page>, u: seq<Page>)
    requires Suffix(b, u) && |b| <= MAX_RECENT
    ensures Suffix(b, LastFew(u))
  {
    assert b == u[|u| - |b|..];
    var few := LastFew(u);
    assert few[..|few| - |b|] + b == few;
  }

  lemma InSuffix(b: seq<Page>, u: seq<Page>, p: Page)
    requires Suffix(b, u) && p in b
    ensures p in u
  {
  }

  lemma {:induction false} WithoutMembers(pages: seq<Page>, id: string, p: Page)
    ensures p in Without(pages, id) <==> p in pages && p.routeId != id
  {
    if pages != [] {
      WithoutMembers(pages[1..], id, p);
    }
  }

  /** What one event does to the membership of a page it does not visit. */
  lemma StepMembers(pages: seq<Page>, e: Event, p: Page)
    requires e != Visited(p)
    ensures p in Step(pages, e) <==> p in pages && p.routeId != e.Id()
  {
    WithoutMembers(pages, e.Id(), p);
  }

  lemma FewMembers(pages: seq<Page>, p: Page)
    ensures p in LastFew(pages) ==> p in pages
  {
  }

  lemma CutMembers(b: seq<Page>, u: seq<Page>, p: Page)
    requires Suffix(LastFew(b), u) && p in b && p in LastFew(u)
    ensures p in LastFew(b)
  {
    if |b| > MAX_RECENT {
      SuffixOfLength(LastFew(b), u);
    }
  }

  /** One more event keeps a page exactly if it is still among the last eight. */
  lemma StepKeepsPage(events: seq<Event>, n: nat, p: Page)
    requires |events| == n + 1 && events[n] != Visited(p)
    ensures p in Bounded(events) <==> p in Bounded(events[..n]) && p in RecentAt(events, n + 1)
  {
    hide Step, LastFew, Suffix, LastVisits, Bounded;
    var u := LastVisits(events);
    assert events[..n + 1] == events && events == events[..n] + [events[n]];
    assert Bounded(events) == CutStep(Bounded(events[..n]), events[n]) by {
      BoundedStep(events, n);
    }
    BoundedIsSuffix(events);
    BoundedIsSuffix(events[..n]);
    StepOnLastVisits(events[..n], events[n]);
    CutStepIsCut(Bounded(events[..n]), events[n]);
    CutKeepsPage(Bounded(events[..n]), LastVisits(events[..n]), events[n], p);
  }

  lemma BoundedStep(events: seq<Event>, n: nat)
    requires |events| == n + 1
    ensures Bounded(events) == CutStep(Bounded(events[..n]), events[n])
  {
  }

  lemma CutKeepsPage(b: seq<Page>, u: seq<Page>, e: Event, p: Page)
    requires Suffix(LastFew(Step(b, e)), Step(u, e)) && e != Visited(p)
    ensures p in LastFew(Step(b, e)) <==> p in b && p in LastFew(Step(u, e))
  {
    hide Step, LastFew, Suffix;
    var few := LastFew(Step(b, e));
    StepMembers(b, e, p);
    StepMembers(u, e, p);
    FewMembers(Step(b, e), p);
    FewMembers(Step(u, e), p);
    if p in few {
      SuffixIsRecent(few, Step(u, e));
      InSuffix(few, LastFew(Step(u, e)), p);
    } else if p in b && p in LastFew(Step(u, e)) {
      CutMembers(Step(b, e), Step(u, e), p);
    }
  }

  lemma CutStepEndsIn(pages: seq<Page>, p: Page)
    ensures p in CutStep(pages, Visited(p))
  {
    hide Without;
    var few := CutStep(pages, Visited(p));
    assert few[|few| - 1] == p;
  }

  lemma RecentSinceNow(events: seq<Event>, n: nat, p: Page)
    requires |events| == n + 1 && events[n] == Visited(p) && p in LastFew(LastVisits(events))
    ensures NeverLeft(events, p)
  {
    hide LastVisits, LastFew;
    assert events[..n + 1] == events;
    assert RecentSince(events, p, n);
  }

  lemma VisitedPageIsThere(events: seq<Event>, n: nat, p: Page)
    requires |events| == n + 1 && events[n] == Visited(p)
    ensures p in Bounded(events) && NeverLeft(events, p)
  {
    hide LastVisits, LastFew, Suffix, DistinctIds, CutStep, Bounded, NeverLeft;
    CutStepEndsIn(Bounded(events[..n]), p);
    BoundedStep(events, n);
    BoundedIsSuffix(events);
    SuffixIsRecent(Bounded(events), LastVisits(events));
    InSuffix(Bounded(events), LastFew(LastVisits(events)), p);
    RecentSinceNow(events, n, p);
  }

  lemma NeverLeftStep(events: seq<Event>, n: nat, p: Page)
    requires |events| == n + 1 && events[n] != Visited(p)
    ensures NeverLeft(events, p) <==> NeverLeft(events[..n], p) && p in RecentAt(events, n + 1)
  {
    hide RecentAt;
    forall t | 0 <= t <= n
      ensures RecentAt(events[..n], t) == RecentAt(events, t)
    {
      RecentAtPrefix(events, n, t);
    }
    if NeverLeft(events, p) {
      var j: nat :| RecentSince(events, p, j);
      assert RecentSince(events[..n], p, j);
    }
    if NeverLeft(events[..n], p) && p in RecentAt(events, n + 1) {
      var j: nat :| RecentSince(events[..n], p, j);
      assert RecentSince(events, p, j);
    }
  }

  /** After every run the list holds exactly the pages that were visited and have been recent ever since. */
  lemma {:induction false} KeptIffNeverLeft(events: seq<Event>, p: Page)
    ensures p in Bounded(events) <==> NeverLeft(events, p)
  {
    hide RecentAt, NeverLeft;
    if events == [] {
      NothingSince(p);
    } else {
      var n := |events| - 1;
      if events[n] == Visited(p) {
        VisitedPageIsThere(events, n, p);
      } else {
        KeptIffNeverLeft(events[..n], p);
        StepKeepsPage(events, n, p);
        NeverLeftStep(events, n, p);
      }
    }
  }

  lemma NothingSince(p: Page)
    ensures !NeverLeft([], p)
  {
  }

  /** The list is the last eight of the last visits exactly if none of these has left them since its visit. */
  lemma RecentListIsLastEightIff(events: seq<Event>)
    ensures Bounded(events) == LastFew(LastVisits(events))
       <==> forall p :: p in LastFew(LastVisits(events)) ==> NeverLeft(events, p)
  {
    hide LastVisits, NeverLeft, Bounded, LastFew, Suffix, DistinctIds;
    var b, few := Bounded(events), LastFew(LastVisits(events));
    forall p
      ensures p in b <==> NeverLeft(events, p)
    {
      KeptIffNeverLeft(events, p);
    }
    BoundedIsSuffix(events);
    UnboundedIsLastVisits(events);
    SuffixIsRecent(b, LastVisits(events));
    FewStayDistinct(LastVisits(events));
    if forall p :: p in few ==> NeverLeft(events, p) {
      SuffixWithAll(b, few);
    }
  }

  lemma FewStayDistinct(pages: seq<Page>)
    requires DistinctIds(pages)
    ensures DistinctIds(LastFew(pages))
  {
  }

  lemma SuffixWithAll(b: seq<Page>, u: seq<Page>)
    requires Suffix(b, u) && DistinctIds(u) && forall p :: p in u ==> p in b
    ensures b == u
  {
    if u != [] {
      assert u[0] in u;
    }
  }

  predicate DistinctVisits(events: seq<Event>) {
    OnlyVisits(events) && forall i, j :: 0 <= i < j < |events| ==> events[i].Id() != events[j].Id()
  }

  /** With a close the cut shows: after nine pages, closing one does not bring the first one back. */
  lemma CloseDoesNotRefill(visits: seq<Event>)
    requires |visits| == 9 && DistinctVisits(visits)
    ensures var events := visits + [Closed(visits[8].Id())];
            |Bounded(events)| == 7 && |LastFew(LastVisits(events))| == 8
  {
    var events := visits + [Closed(visits[8].Id())];
    assert events[..9] == visits;
    BoundedVisits(visits);
    AllVisitsLast(visits);
    UnboundedIsLastVisits(visits);
    UnboundedIsLastVisits(events);
    var pages := LastVisits(visits);
    assert pages[8].routeId == visits[8].Id();
    DropLast(pages);
    assert DistinctIds(LastFew(pages));
    DropLast(LastFew(pages));
  }

  lemma FirstVisitStays(visits: seq<Event>)
    requires visits != [] && DistinctVisits(visits)
    ensures LastVisits(visits) == [visits[0].page] + LastVisits(visits[1..]) && DistinctVisits(visits[1..])
  {
    var rest := visits[1..];
    assert forall i :: 0 <= i < |rest| ==> rest[i] == visits[i + 1];
    assert Unmentioned(rest, visits[0].Id());
  }

  lemma {:induction false} AllVisitsLast(visits: seq<Event>)
    requires DistinctVisits(visits)
    ensures |LastVisits(visits)| == |visits|
    ensures forall i :: 0 <= i < |visits| ==> LastVisits(visits)[i] == visits[i].page
  {
    if visits != [] {
      hide LastVisits;
      FirstVisitStays(visits);
      AllVisitsLast(visits[1..]);
    }
  }

  lemma DropLast(pages: seq<Page>)
    requires pages != [] && DistinctIds(pages)
    ensures Without(pages, pages[|pages| - 1].routeId) == pages[..|pages| - 1]
  {
    hide Without;
    var n := |pages| - 1;
    var a, last := pages[..n], pages[n];
    assert Absent(a, last.routeId);
    assert pages == a + [last];
    TakeOutLast(a, last);
  }

  lemma TakeOutLast(a: seq<Page>, last: Page)
    requires Absent(a, last.routeId)
    ensures Without(a + [last], last.routeId) == a
  {
    WithoutConcat(a, [last], last.routeId);
    WithoutAbsent(a, last.routeId, last.routeId);
    assert Without([last], last.routeId) == Without([], last.routeId) == [];
    assert a + [] == a;
  }
}
