/** `GET /api/events`: the event listing (`app/api/events/route.ts`). */
module EventsRoute {
  import opened Base
  import opened Seqs
  import opened Paging
  import opened Listing
  import opened EventModel
  import opened Store

  /** One event of the response; dates are timestamps. */
  datatype EventView = EventView(
    id: string, title: string, description: string, date: int, venue: string,
    maxTeamSize: int, minTeamSize: int, registrationDeadline: int, createdAt: int,
    eventType: Option<string>)

  function View(e: Event): EventView {
    EventView(e.id, e.title, e.description, e.date, e.venue, e.maxTeamSize,
      e.minTeamSize, e.registrationDeadline, e.createdAt, e.eventType)
  }

  /** `mongoEvents.map(...)`: one view per event, in order. */
  function Views(es: seq<Event>): (r: seq<EventView>)
    ensures |r| == |es|
    ensures forall k :: 0 <= k < |r| ==> r[k] == View(es[k])
  {
    seq(|es|, k requires 0 <= k < |es| => View(es[k]))
  }

  /** The `$or` condition: title, description, venue or type contains the search, ignoring case. */
  predicate AnyFieldMatches(e: Event, search: string) {
    RegexMatches(Some(e.title), search) || RegexMatches(Some(e.description), search)
    || RegexMatches(Some(e.venue), search) || RegexMatches(e.eventType, search)
  }

  /** The query: no condition for an empty search, else the `$or` condition. */
  function Query(search: string): Event -> bool {
    if search == "" then e => true else e => AnyFieldMatches(e, search)
  }

  /** An event the query selects. */
  predicate Matches(e: Event, search: string) {
    search == "" || AnyFieldMatches(e, search)
  }

  function DateKey(e: Event): int {
    e.date
  }

  /** `find(query).sort({ date: 1 }).skip(skip).limit(limit)`, formatted. */
  function Listed(events: seq<Event>, search: string, page: int, limit: int): seq<EventView>
    requires page >= 1 && limit >= 1
  {
    Views(FilteredPage(events, Query(search), DateKey, page, limit))
  }

  /**
   * The handler. Without a session: 401 before anything is read. When the
   * store cannot be reached: 500. Otherwise the page of matching events with
   * `total`, the echoed `page` and `limit`, and `pages = ceil(total / limit)`.
   */
  function Get(hasSession: bool, url: string, db: Option<Db>): (r: Response<EventView>)
    requires hasSession ==> Serviceable(url)
    ensures !hasSession ==> r == Failure(401, "Unauthorized")
    ensures hasSession && db.None? ==> r == Failure(500, "Failed to fetch events")
    ensures hasSession && db.Some? ==> r.Page?
    ensures hasSession && db.Some? ==>
      var page := IntParam(url, "page", "1").value;
      var limit := IntParam(url, "limit", "10").value;
      var search := TextParam(url, "search");
      && r.pagination.page == page && r.pagination.limit == limit
      && r.pagination.total == |Filter(db.value.events, Query(search))|
      && r.pagination.pages == PageCount(r.pagination.total, limit)
      && r.items == Listed(db.value.events, search, page, limit)
  {
    if !hasSession then Failure(401, "Unauthorized")
    else
      var page := IntParam(url, "page", "1").value;
      var limit := IntParam(url, "limit", "10").value;
      var search := TextParam(url, "search");
      if db.None? then Failure(500, "Failed to fetch events")
      else
        var total := |Filter(db.value.events, Query(search))|;
        Page(Listed(db.value.events, search, page, limit),
          Pagination(total, page, limit, PageCount(total, limit)))
  }

  /** The query selects an event exactly when it matches; an empty search selects all. */
  lemma QueryIsMatch(search: string, e: Event)
    ensures Query(search)(e) <==> Matches(e, search)
    ensures search == "" ==> Query(search)(e)
  {
  }

  /** An empty search counts and lists every event. */
  lemma {:induction false} EmptySearchSelectsAll(events: seq<Event>)
    ensures Filter(events, Query("")) == events
  {
    if events != [] {
      EmptySearchSelectsAll(events[1..]);
      assert events == [events[0]] + events[1..];
    }
  }

  /** A page holds at most `limit` events, earliest first. */
  lemma ListedOrdered(events: seq<Event>, search: string, page: int, limit: int)
    requires page >= 1 && limit >= 1
    ensures var r := Listed(events, search, page, limit);
      |r| <= limit && forall i, j :: 0 <= i < j < |r| ==> r[i].date <= r[j].date
  {
    var w := FilteredPage(events, Query(search), DateKey, page, limit);
    FilteredPageSound(events, Query(search), DateKey, page, limit);
    var r := Views(w);
    forall i, j | 0 <= i < j < |r|
      ensures r[i].date <= r[j].date
    {
      assert DateKey(w[i]) <= DateKey(w[j]);
    }
  }

  /** Every listed event is a stored event that matches the search. */
  lemma ListedMatch(events: seq<Event>, search: string, page: int, limit: int)
    requires page >= 1 && limit >= 1
    ensures var r := Listed(events, search, page, limit);
      forall k :: 0 <= k < |r| ==>
        exists i :: 0 <= i < |events| && Matches(events[i], search) && r[k] == View(events[i])
  {
    var w := FilteredPage(events, Query(search), DateKey, page, limit);
    FilteredPageSound(events, Query(search), DateKey, page, limit);
    forall k | 0 <= k < |w|
      ensures exists i :: 0 <= i < |events| && Matches(events[i], search) && View(w[k]) == View(events[i])
    {
      var i :| 0 <= i < |events| && events[i] == w[k];
      QueryIsMatch(search, w[k]);
    }
  }

  /** Every matching event is listed on one of the `pages` pages. */
  lemma EveryMatchListed(events: seq<Event>, search: string, limit: int, i: nat)
    requires limit >= 1 && i < |events| && Matches(events[i], search)
    ensures exists page ::
      1 <= page <= PageCount(|Filter(events, Query(search))|, limit)
      && View(events[i]) in Listed(events, search, page, limit)
  {
    QueryIsMatch(search, events[i]);
    FilteredPageComplete(events, Query(search), DateKey, limit, i);
    var page :| 1 <= page <= PageCount(|Filter(events, Query(search))|, limit)
      && events[i] in FilteredPage(events, Query(search), DateKey, page, limit);
    var w := FilteredPage(events, Query(search), DateKey, page, limit);
    var k :| 0 <= k < |w| && w[k] == events[i];
    assert Listed(events, search, page, limit)[k] == View(events[i]);
  }
}
