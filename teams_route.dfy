/**
 * `GET /api/teams`: the team listing with its in-memory join of events and
 * leaders (`app/api/teams/route.ts`).
 */
module TeamsRoute {
  import opened Base
  import opened Seqs
  import opened Paging
  import opened Listing
  import opened EventModel
  import opened TeamModel
  import opened UserModel
  import opened Store
  import ObjectId

  /** The `{ _id, title }` an event is joined as. */
  datatype EventSummary = EventSummary(id: string, title: string)

  /** The `{ _id, name, email, phone, role }` a leader is joined as. */
  datatype LeaderSummary = LeaderSummary(id: string, name: string, email: string, phone: Option<string>, role: string)

  /** One team of the response; `registrationDate` is a timestamp. */
  datatype TeamView = TeamView(
    id: string, name: string, event: Option<EventSummary>,
    phone: string, email: string, fullname: string, institution: string,
    member1: string, member2: string, member3: string,
    leader: Option<LeaderSummary>, members: seq<Member>, registrationDate: int)

  /** The title given to an event id that the store does not resolve. */
  const Placeholder := "Event information not available"

  // ---------------------------------------------------------------- the query

  /** The query object: an optional `$or` text condition and an optional `event` condition. */
  datatype TeamQuery = TeamQuery(text: Option<string>, event: Option<string>)

  /** Name, email or fullname contains the search, ignoring case. */
  predicate TextMatches(t: Team, search: string) {
    RegexMatches(Some(t.name), search) || RegexMatches(t.email, search) || RegexMatches(t.fullname, search)
  }

  /** What `find(query)` selects: both conditions hold; the event id is compared as an ObjectId. */
  predicate Selects(q: TeamQuery, t: Team) {
    (q.text.None? || TextMatches(t, q.text.value))
    && (q.event.None? || (ObjectId.Cast(q.event.value).Some? && t.event == ObjectId.Cast(q.event.value)))
  }

  /**
   * The teams a request asks for: the search is empty or matches the text
   * fields, and the event id is empty, 'all', or the team's event.
   */
  predicate Wanted(t: Team, search: string, eventId: string) {
    (search == "" || TextMatches(t, search))
    && (eventId == "" || eventId == "all"
        || (ObjectId.Cast(eventId).Some? && t.event == ObjectId.Cast(eventId)))
  }

  function WantedBy(search: string, eventId: string): Team -> bool {
    t => Wanted(t, search, eventId)
  }

  function SelectedBy(q: TeamQuery): Team -> bool {
    t => Selects(q, t)
  }

  /** `let query = {}`, replaced by the `$or` for a search, then given an `event` key. */
  method BuildQuery(search: string, eventId: string) returns (q: TeamQuery)
    ensures forall t :: Selects(q, t) <==> Wanted(t, search, eventId)
    ensures q.event.Some? <==> eventId != "" && eventId != "all"
    ensures q.event.Some? ==> q.event.value == eventId
  {
    q := TeamQuery(None, None);
    if search != "" {
      q := TeamQuery(Some(search), None);
    }
    if eventId != "" && eventId != "all" {
      q := q.(event := Some(eventId));
    }
  }

  /** `registrationDate: -1` as an ascending key: newest first. */
  function NewestFirst(t: Team): int {
    -t.registrationDate
  }

  /** The teams of the requested page. */
  function PageTeams(teams: seq<Team>, search: string, eventId: string, page: int, limit: int): seq<Team>
    requires page >= 1 && limit >= 1
  {
    FilteredPage(teams, WantedBy(search, eventId), NewestFirst, page, limit)
  }

  /** A page holds at most `limit` teams, newest first, each a stored team the request asks for. */
  lemma PageTeamsSound(teams: seq<Team>, search: string, eventId: string, page: int, limit: int)
    requires page >= 1 && limit >= 1
    ensures var r := PageTeams(teams, search, eventId, page, limit);
      && |r| <= limit
      && (forall i, j :: 0 <= i < j < |r| ==> r[i].registrationDate >= r[j].registrationDate)
      && forall k :: 0 <= k < |r| ==> r[k] in teams && Wanted(r[k], search, eventId)
  {
    var r := PageTeams(teams, search, eventId, page, limit);
    FilteredPageSound(teams, WantedBy(search, eventId), NewestFirst, page, limit);
    forall i, j | 0 <= i < j < |r|
      ensures r[i].registrationDate >= r[j].registrationDate
    {
      assert NewestFirst(r[i]) <= NewestFirst(r[j]);
    }
  }

  /** Every team the request asks for is on one of the `pages` pages. */
  lemma EveryWantedTeamListed(teams: seq<Team>, search: string, eventId: string, limit: int, i: nat)
    requires limit >= 1 && i < |teams| && Wanted(teams[i], search, eventId)
    ensures exists page ::
      1 <= page <= PageCount(|Filter(teams, WantedBy(search, eventId))|, limit)
      && teams[i] in PageTeams(teams, search, eventId, page, limit)
  {
    assert WantedBy(search, eventId)(teams[i]);
    FilteredPageComplete(teams, WantedBy(search, eventId), NewestFirst, limit, i);
    var page :| 1 <= page <= PageCount(|Filter(teams, WantedBy(search, eventId))|, limit)
      && teams[i] in FilteredPage(teams, WantedBy(search, eventId), NewestFirst, page, limit);
    assert teams[i] in PageTeams(teams, search, eventId, page, limit);
  }

  // ------------------------------------------------------- the page-local join

  /** `teams.map(t => t.event?.toString()).filter(Boolean)`. */
  function EventRefs(teams: seq<Team>): (r: seq<string>)
    ensures forall x :: x in r <==> exists k :: 0 <= k < |teams| && teams[k].event == Some(x) && x != ""
  {
    if teams == [] then []
    else
      var rest := EventRefs(teams[1..]);
      assert forall k :: 1 <= k < |teams| ==> teams[k] == teams[1..][k - 1];
      (if Truthy(teams[0].event) then [teams[0].event.value] else []) + rest
  }

  /** `teams.map(t => t.leader?.toString()).filter(Boolean)`. */
  function LeaderRefs(teams: seq<Team>): (r: seq<string>)
    ensures forall x :: x in r <==> exists k :: 0 <= k < |teams| && teams[k].leader == Some(x) && x != ""
  {
    if teams == [] then []
    else
      var rest := LeaderRefs(teams[1..]);
      assert forall k :: 1 <= k < |teams| ==> teams[k] == teams[1..][k - 1];
      (if Truthy(teams[0].leader) then [teams[0].leader.value] else []) + rest
  }

  /**
   * The ids looked up are the distinct event ids and leader ids that the
   * teams of the current page carry, and no others.
   */
  lemma PageIds(teams: seq<Team>)
    ensures NoDuplicates(Distinct(EventRefs(teams))) && NoDuplicates(Distinct(LeaderRefs(teams)))
    ensures forall x :: x in Distinct(EventRefs(teams)) <==>
      exists k :: 0 <= k < |teams| && teams[k].event == Some(x) && x != ""
    ensures forall x :: x in Distinct(LeaderRefs(teams)) <==>
      exists k :: 0 <= k < |teams| && teams[k].leader == Some(x) && x != ""
  {
    DistinctSameElements(EventRefs(teams));
    DistinctSameElements(LeaderRefs(teams));
  }

  function EventHasIdIn(ids: seq<string>): Event -> bool {
    (e: Event) => e.id in ids
  }

  function UserHasIdIn(ids: seq<string>): User -> bool {
    (u: User) => u.id in ids
  }

  function EventId(e: Event): string {
    e.id
  }

  function UserId(u: User): string {
    u.id
  }

  function EventSummaryOf(e: Event): EventSummary {
    EventSummary(e.id, e.title)
  }

  function LeaderSummaryOf(u: User): LeaderSummary {
    LeaderSummary(u.id, u.name, u.email, u.phone, u.role)
  }

  /**
   * The map a `forEach` of `map.set(key(x), val(x))` leaves: every key of
   * `s` is present, bound to the value of an element with that key (the
   * last one, as `IndexLastWins` shows).
   */
  function Index<T, V>(s: seq<T>, key: T -> string, val: T -> V): (m: map<string, V>)
    ensures forall x :: x in m <==> exists i :: 0 <= i < |s| && key(s[i]) == x
    ensures forall x :: x in m ==>
      exists i :: 0 <= i < |s| && key(s[i]) == x && m[x] == val(s[i])
  {
    if s == [] then map[]
    else
      var n := |s| - 1;
      var m := Index(s[..n], key, val);
      assert forall i :: 0 <= i < n ==> s[..n][i] == s[i];
      m[key(s[n]) := val(s[n])]
  }

  /** The last element with a key is the one whose value the key is bound to. */
  lemma {:induction false} IndexLastWins<T, V>(s: seq<T>, key: T -> string, val: T -> V, i: nat)
    requires i < |s| && forall j :: i < j < |s| ==> key(s[j]) != key(s[i])
    ensures key(s[i]) in Index(s, key, val) && Index(s, key, val)[key(s[i])] == val(s[i])
  {
    var n := |s| - 1;
    if i < n {
      IndexLastWins(s[..n], key, val, i);
    }
  }

  /** The `forEach` that fills a map from the fetched documents. */
  method BuildIndex<T, V>(s: seq<T>, key: T -> string, val: T -> V) returns (m: map<string, V>)
    ensures m == Index(s, key, val)
  {
    m := map[];
    var i := 0;
    while i < |s|
      invariant 0 <= i <= |s|
      invariant m == Index(s[..i], key, val)
    {
      assert s[..i + 1][..i] == s[..i];
      m := m[key(s[i]) := val(s[i])];
      i := i + 1;
    }
    assert s[..|s|] == s;
  }

  /** No two elements of `s` share a key. */
  predicate UniqueKeys<T>(s: seq<T>, key: T -> string) {
    forall i, j :: 0 <= i < j < |s| ==> key(s[i]) != key(s[j])
  }

  /** Indexing the elements that pass a filter finds each of them under its own key. */
  lemma IndexFilteredHit<T, V>(s: seq<T>, p: T -> bool, key: T -> string, val: T -> V, i: nat)
    requires UniqueKeys(s, key) && i < |s| && p(s[i])
    ensures var m := Index(Filter(s, p), key, val);
      key(s[i]) in m && m[key(s[i])] == val(s[i])
  {
    var f := Filter(s, p);
    var m := Index(f, key, val);
    assert s[i] in f;
    var j :| 0 <= j < |f| && f[j] == s[i];
    assert key(f[j]) == key(s[i]);
    var j' :| 0 <= j' < |f| && key(f[j']) == key(s[i]) && m[key(s[i])] == val(f[j']);
    var i' :| 0 <= i' < |s| && s[i'] == f[j'];
    assert key(s[i']) == key(s[i]);
  }

  /** A key that no element carries is not in the index. */
  lemma IndexFilteredMiss<T, V>(s: seq<T>, p: T -> bool, key: T -> string, val: T -> V, x: string)
    requires forall i :: 0 <= i < |s| ==> key(s[i]) != x
    ensures x !in Index(Filter(s, p), key, val)
  {
  }

  /** `a || b || c || ''` over the three spellings of a member field. */
  function Coalesce(sp: MemberSpellings): (r: string)
    ensures r == "" <==> !Truthy(sp.plain) && !Truthy(sp.capitalized) && !Truthy(sp.underscored)
    ensures Truthy(sp.plain) ==> r == sp.plain.value
    ensures !Truthy(sp.plain) && Truthy(sp.capitalized) ==> r == sp.capitalized.value
    ensures !Truthy(sp.plain) && !Truthy(sp.capitalized) && Truthy(sp.underscored) ==> r == sp.underscored.value
  {
    OrEmpty(Or(Or(sp.plain, sp.capitalized), sp.underscored))
  }

  /** The formatting of one team from the two lookup maps. */
  function Format(t: Team, events: map<string, EventSummary>, users: map<string, LeaderSummary>): TeamView {
    var eventInfo := if Truthy(t.event) && t.event.value in events then Some(events[t.event.value]) else None;
    var leaderInfo := if Truthy(t.leader) && t.leader.value in users then Some(users[t.leader.value]) else None;
    TeamView(t.id, t.name,
      if eventInfo.Some? then eventInfo
      else if Truthy(t.event) then Some(EventSummary(t.event.value, Placeholder))
      else None,
      OrEmpty(t.phone), OrEmpty(t.email), OrEmpty(t.fullname), OrEmpty(t.institution),
      Coalesce(t.member1), Coalesce(t.member2), Coalesce(t.member3),
      leaderInfo, t.members, t.registrationDate)
  }

  // ------------------------------------------------------ the intended result

  function EventWithId(id: string): Event -> bool {
    (e: Event) => e.id == id
  }

  function UserWithId(id: string): User -> bool {
    (u: User) => u.id == id
  }

  /**
   * The event a team shows, read directly from the whole store: the stored
   * event's summary, a placeholder for an id the store does not hold, or
   * nothing for a team without an event.
   */
  function ExpectedEvent(db: Db, t: Team): Option<EventSummary> {
    if !Truthy(t.event) then None
    else match Find(db.events, EventWithId(t.event.value))
      case Some(e) => Some(EventSummaryOf(e))
      case None => Some(EventSummary(t.event.value, Placeholder))
  }

  /** The leader a team shows: the stored user's summary, or nothing. */
  function ExpectedLeader(db: Db, t: Team): Option<LeaderSummary> {
    if !Truthy(t.leader) then None
    else match Find(db.users, UserWithId(t.leader.value))
      case Some(u) => Some(LeaderSummaryOf(u))
      case None => None
  }

  /** A team as the listing should show it, with blank contact fields as ''. */
  function Expected(db: Db, t: Team): TeamView {
    TeamView(t.id, t.name, ExpectedEvent(db, t),
      OrEmpty(t.phone), OrEmpty(t.email), OrEmpty(t.fullname), OrEmpty(t.institution),
      Coalesce(t.member1), Coalesce(t.member2), Coalesce(t.member3),
      ExpectedLeader(db, t), t.members, t.registrationDate)
  }

  /** The event id of a request can be used as an ObjectId, or is not used. */
  predicate EventIdUsable(eventId: string) {
    eventId == "" || eventId == "all" || ObjectId.IsHexId(eventId)
  }

  // ------------------------------------------------------------ the handler

  /**
   * The handler. Without a session: 401 before anything is read. When the
   * store cannot be reached, or the event id is not an ObjectId: 500.
   * Otherwise the requested page of teams, newest first, each joined with
   * its event and leader as the store holds them, and the pagination.
   */
  method Get(hasSession: bool, url: string, db: Option<Db>) returns (r: Response<TeamView>)
    requires hasSession ==> Serviceable(url)
    requires db.Some? ==> Store.Valid(db.value)
    ensures !hasSession ==> r == Failure(401, "Unauthorized")
    ensures hasSession && db.None? ==> r == Failure(500, "Failed to fetch teams")
    ensures hasSession && db.Some? && !EventIdUsable(TextParam(url, "eventId")) ==>
      r == Failure(500, "Failed to fetch teams")
    ensures hasSession && db.Some? && EventIdUsable(TextParam(url, "eventId")) ==> r.Page?
    ensures r.Page? ==> hasSession && db.Some?
    ensures r.Page? && db.Some? ==>
      var page := IntParam(url, "page", "1").value;
      var limit := IntParam(url, "limit", "10").value;
      var search := TextParam(url, "search");
      var eventId := TextParam(url, "eventId");
      var teams := PageTeams(db.value.teams, search, eventId, page, limit);
      && r.pagination.page == page && r.pagination.limit == limit
      && r.pagination.total == |Filter(db.value.teams, WantedBy(search, eventId))|
      && r.pagination.pages == PageCount(r.pagination.total, limit)
      && |r.items| == |teams|
      && forall k :: 0 <= k < |r.items| ==> r.items[k] == Expected(db.value, teams[k])
  {
    if !hasSession {
      return Failure(401, "Unauthorized");
    }
    var page := IntParam(url, "page", "1").value;
    var limit := IntParam(url, "limit", "10").value;
    var search := TextParam(url, "search");
    var eventId := TextParam(url, "eventId");
    if db.None? {
      return Failure(500, "Failed to fetch teams");
    }
    var store := db.value;
    var query := BuildQuery(search, eventId);
    if query.event.Some? && ObjectId.Cast(query.event.value).None? {
      return Failure(500, "Failed to fetch teams");
    }
    FilterSamePredicate(store.teams, SelectedBy(query), WantedBy(search, eventId));
    var total := |Filter(store.teams, SelectedBy(query))|;
    var pages := PageCount(total, limit);
    var teams := FilteredPage(store.teams, SelectedBy(query), NewestFirst, page, limit);
    assert teams == PageTeams(store.teams, search, eventId, page, limit);

    var views := JoinPage(store, teams);
    return Page(views, Pagination(total, page, limit, pages));
  }

  /**
   * The join of one page: the distinct event and leader ids of the page are
   * looked up, the fetched documents indexed by id, and every team formatted
   * from the two indexes.
   */
  method JoinPage(store: Db, teams: seq<Team>) returns (views: seq<TeamView>)
    requires Store.Valid(store)
    ensures |views| == |teams|
    ensures forall k :: 0 <= k < |teams| ==> views[k] == Expected(store, teams[k])
  {
    var eventIds := Distinct(EventRefs(teams));
    var dbEvents := Filter(store.events, EventHasIdIn(eventIds));
    var eventMap := BuildIndex(dbEvents, EventId, EventSummaryOf);

    var leaderIds := Distinct(LeaderRefs(teams));
    var users := Filter(store.users, UserHasIdIn(leaderIds));
    var userMap := BuildIndex(users, UserId, LeaderSummaryOf);

    views := seq(|teams|, k requires 0 <= k < |teams| => Format(teams[k], eventMap, userMap));
    forall k | 0 <= k < |teams|
      ensures views[k] == Expected(store, teams[k])
    {
      JoinIsLookup(store, teams, k);
    }
  }

  /**
   * Joining through maps built from the current page's ids gives the same
   * event and leader as looking the team's ids up in the whole store.
   */
  lemma JoinIsLookup(db: Db, teams: seq<Team>, k: nat)
    requires Store.Valid(db) && k < |teams|
    ensures var em := Index(Filter(db.events, EventHasIdIn(Distinct(EventRefs(teams)))), EventId, EventSummaryOf);
      var um := Index(Filter(db.users, UserHasIdIn(Distinct(LeaderRefs(teams)))), UserId, LeaderSummaryOf);
      Format(teams[k], em, um) == Expected(db, teams[k])
  {
    PageIds(teams);
    EventJoin(db, Distinct(EventRefs(teams)), teams[k]);
    LeaderJoin(db, Distinct(LeaderRefs(teams)), teams[k]);
  }

  lemma EventJoin(db: Db, ids: seq<string>, t: Team)
    requires Store.Valid(db)
    requires Truthy(t.event) ==> t.event.value in ids
    ensures var em := Index(Filter(db.events, EventHasIdIn(ids)), EventId, EventSummaryOf);
      ExpectedEvent(db, t) ==
        if Truthy(t.event) && t.event.value in em then Some(em[t.event.value])
        else if Truthy(t.event) then Some(EventSummary(t.event.value, Placeholder))
        else None
  {
    if Truthy(t.event) {
      var id := t.event.value;
      var found := Find(db.events, EventWithId(id));
      assert UniqueKeys(db.events, EventId);
      if found.Some? {
        var i :| 0 <= i < |db.events| && db.events[i] == found.value && EventWithId(id)(db.events[i]);
        IndexFilteredHit(db.events, EventHasIdIn(ids), EventId, EventSummaryOf, i);
      } else {
        IndexFilteredMiss(db.events, EventHasIdIn(ids), EventId, EventSummaryOf, id);
      }
    }
  }

  lemma LeaderJoin(db: Db, ids: seq<string>, t: Team)
    requires Store.Valid(db)
    requires Truthy(t.leader) ==> t.leader.value in ids
    ensures var um := Index(Filter(db.users, UserHasIdIn(ids)), UserId, LeaderSummaryOf);
      ExpectedLeader(db, t) ==
        if Truthy(t.leader) && t.leader.value in um then Some(um[t.leader.value]) else None
  {
    if Truthy(t.leader) {
      var id := t.leader.value;
      var found := Find(db.users, UserWithId(id));
      assert UniqueKeys(db.users, UserId);
      if found.Some? {
        var i :| 0 <= i < |db.users| && db.users[i] == found.value && UserWithId(id)(db.users[i]);
        IndexFilteredHit(db.users, UserHasIdIn(ids), UserId, LeaderSummaryOf, i);
      } else {
        IndexFilteredMiss(db.users, UserHasIdIn(ids), UserId, LeaderSummaryOf, id);
      }
    }
  }
}
