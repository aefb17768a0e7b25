/**
 * The dashboard home page (`app/dashboard/page.tsx`): the two requests it
 * makes, and how it turns their responses into the figures it shows —
 * totals, the next five events and the latest registrations.
 */
module DashboardPage {
  import opened Base
  import opened Seqs
  import opened Paging
  import opened Listing
  import Text
  import JsNumber
  import Uri
  import EventsRoute
  import TeamsRoute

  type EventView = EventsRoute.EventView
  type TeamView = TeamsRoute.TeamView

  /** An entry of the upcoming-events list: five fields of the event. */
  datatype UpcomingEvent = UpcomingEvent(
    id: string, title: string, date: int, venue: string, eventType: Option<string>)

  datatype DashboardStats = DashboardStats(
    totalEvents: nat, totalTeams: nat,
    upcomingEvents: seq<UpcomingEvent>, recentRegistrations: seq<TeamView>)

  const EventsUrl := "/api/events?limit=100"
  const TeamsUrl := "/api/teams?limit=5"
  const LoadError := "Failed to load dashboard data. Please try again later."

  /** How many upcoming events the page shows. */
  const UpcomingCount := 5

  function Summary(e: EventView): UpcomingEvent {
    UpcomingEvent(e.id, e.title, e.date, e.venue, e.eventType)
  }

  function Summaries(es: seq<EventView>): (r: seq<UpcomingEvent>)
    ensures |r| == |es|
    ensures forall k :: 0 <= k < |r| ==> r[k] == Summary(es[k])
  {
    seq(|es|, k requires 0 <= k < |es| => Summary(es[k]))
  }

  function EventDate(e: EventView): int {
    e.date
  }

  /** The events that have not yet started at `now`. */
  function NotBefore(now: int): EventView -> bool {
    (e: EventView) => e.date >= now
  }

  /** A copy of the events sorted by date, then those not before `now`. */
  function Qualifying(events: seq<EventView>, now: int): seq<EventView> {
    Filter(SortBy(events, EventDate), NotBefore(now))
  }

  /** `sortedEvents.filter(...).slice(0, 5).map(...)`. */
  function UpcomingEvents(events: seq<EventView>, now: int): seq<UpcomingEvent> {
    Summaries(Take(Qualifying(events, now), UpcomingCount))
  }

  /**
   * `fetchDashboardData`: either request failing ends in the error message;
   * otherwise the totals of both listings, the upcoming events and the teams
   * of the second response as they came.
   */
  function Load(events: Response<EventView>, teams: Response<TeamView>, now: int): (r: Result<DashboardStats, string>)
    ensures r.Ok? <==> events.Page? && teams.Page?
    ensures r.Err? ==> r.error == LoadError
    ensures r.Ok? ==>
      && r.value.totalEvents == events.pagination.total
      && r.value.totalTeams == teams.pagination.total
      && r.value.upcomingEvents == UpcomingEvents(events.items, now)
      && r.value.recentRegistrations == teams.items
  {
    if events.Failure? || teams.Failure? then Err(LoadError)
    else
      Ok(DashboardStats(events.pagination.total, teams.pagination.total,
        UpcomingEvents(events.items, now), teams.items))
  }

  /** Each event's date is at least the dates before it. */
  lemma QualifyingSorted(events: seq<EventView>, now: int)
    ensures SortedBy(Qualifying(events, now), EventDate)
  {
    FilterSorted(SortBy(events, EventDate), NotBefore(now), EventDate);
  }

  /** At most five upcoming events, earliest first. */
  lemma UpcomingOrdered(events: seq<EventView>, now: int)
    ensures var r := UpcomingEvents(events, now);
      && |r| <= UpcomingCount
      && forall i, j :: 0 <= i < j < |r| ==> r[i].date <= r[j].date
  {
    var q := Qualifying(events, now);
    var t := Take(q, UpcomingCount);
    var r := UpcomingEvents(events, now);
    QualifyingSorted(events, now);
    forall i, j | 0 <= i < j < |r|
      ensures r[i].date <= r[j].date
    {
      assert t[i] == q[i] && t[j] == q[j];
      assert EventDate(q[i]) <= EventDate(q[j]);
    }
  }

  /** Every upcoming entry is the summary of a loaded event that is not before `now`. */
  lemma UpcomingFromLoaded(events: seq<EventView>, now: int)
    ensures var r := UpcomingEvents(events, now);
      forall k :: 0 <= k < |r| ==>
        exists i :: 0 <= i < |events| && events[i].date >= now && r[k] == Summary(events[i])
  {
    var q := Qualifying(events, now);
    var t := Take(q, UpcomingCount);
    var r := UpcomingEvents(events, now);
    forall k | 0 <= k < |r|
      ensures exists i :: 0 <= i < |events| && events[i].date >= now && r[k] == Summary(events[i])
    {
      assert t[k] == q[k];
      var i := SortedFrom(events, q[k]);
    }
  }

  /** An event of the sorted copy is one of the loaded events. */
  lemma SortedFrom(events: seq<EventView>, e: EventView) returns (i: nat)
    requires e in SortBy(events, EventDate)
    ensures i < |events| && events[i] == e
  {
    assert e in multiset(SortBy(events, EventDate));
    assert e in multiset(events);
    i :| 0 <= i < |events| && events[i] == e;
  }

  /**
   * A loaded event not before `now` is listed, unless five events are listed
   * and none of them is later than it: the list holds the earliest ones.
   */
  lemma UpcomingComplete(events: seq<EventView>, now: int, i: nat)
    requires i < |events| && events[i].date >= now
    ensures var r := UpcomingEvents(events, now);
      || Summary(events[i]) in r
      || (|r| == UpcomingCount && forall k :: 0 <= k < |r| ==> r[k].date <= events[i].date)
  {
    var q := Qualifying(events, now);
    var sorted := SortBy(events, EventDate);
    var t := Take(q, UpcomingCount);
    var r := UpcomingEvents(events, now);
    QualifyingSorted(events, now);
    assert events[i] in multiset(events);
    assert events[i] in multiset(sorted);
    var j :| 0 <= j < |sorted| && sorted[j] == events[i];
    assert NotBefore(now)(sorted[j]);
    assert events[i] in q;
    var m :| 0 <= m < |q| && q[m] == events[i];
    if m < UpcomingCount {
      assert t[m] == events[i];
      assert r[m] == Summary(events[i]);
    } else {
      forall k | 0 <= k < |r|
        ensures r[k].date <= events[i].date
      {
        assert t[k] == q[k];
        assert EventDate(q[k]) <= EventDate(q[m]);
      }
    }
  }

  /** Fewer than five upcoming events means every loaded event not before `now` is among them. */
  lemma FewUpcomingAllListed(events: seq<EventView>, now: int)
    requires |UpcomingEvents(events, now)| < UpcomingCount
    ensures forall i :: 0 <= i < |events| && events[i].date >= now ==> Summary(events[i]) in UpcomingEvents(events, now)
  {
    forall i | 0 <= i < |events| && events[i].date >= now
      ensures Summary(events[i]) in UpcomingEvents(events, now)
    {
      UpcomingComplete(events, now, i);
    }
  }

  /** The event request is served: the first page of 100 events, with no search. */
  lemma EventsRequestServed()
    ensures Serviceable(EventsUrl)
    ensures IntParam(EventsUrl, "page", "1") == Some(1) && IntParam(EventsUrl, "limit", "10") == Some(100)
    ensures TextParam(EventsUrl, "search") == ""
  {
    assert JsNumber.IntToString(100) == "100";
    assert EventsUrl == "/api/events" + "?" + Uri.Piece("limit", "100");
    LimitOnlyServed("/api/events", 100);
  }

  /** The team request is served: the first page of 5 teams, with no search and no event filter. */
  lemma TeamsRequestServed()
    ensures Serviceable(TeamsUrl)
    ensures IntParam(TeamsUrl, "page", "1") == Some(1) && IntParam(TeamsUrl, "limit", "10") == Some(5)
    ensures TextParam(TeamsUrl, "search") == "" && TeamsRoute.EventIdUsable(TextParam(TeamsUrl, "eventId"))
  {
    assert JsNumber.IntToString(5) == "5";
    assert TeamsUrl == "/api/teams" + "?" + Uri.Piece("limit", "5");
    LimitOnlyServed("/api/teams", 5);
  }

  /** A URL whose query is only `limit=<n>` asks for the first page, `n` items, no search and no event. */
  lemma LimitOnlyServed(path: string, n: nat)
    requires '?' !in path && n >= 1
    ensures var url := path + "?" + Uri.Piece("limit", JsNumber.IntToString(n));
      && Serviceable(url)
      && IntParam(url, "page", "1") == Some(1) && IntParam(url, "limit", "10") == Some(n)
      && TextParam(url, "search") == "" && TextParam(url, "eventId") == ""
  {
    LimitOnly(path, n, "page");
    LimitOnly(path, n, "limit");
    LimitOnly(path, n, "search");
    LimitOnly(path, n, "eventId");
    JsNumber.ParseIntOfIntToString(1);
    JsNumber.ParseIntOfIntToString(n);
    assert JsNumber.IntToString(1) == "1";
  }

  /** A URL whose query is the one piece `limit=<n>` answers `n` for `limit` and nothing for any other name. */
  lemma LimitOnly(path: string, n: nat, name: string)
    requires '?' !in path
    ensures Uri.GetParam(path + "?" + Uri.Piece("limit", JsNumber.IntToString(n)), name)
      == if name == "limit" then Some(JsNumber.IntToString(n)) else None
  {
    var v := JsNumber.IntToString(n);
    var q := Uri.Piece("limit", v);
    Uri.QueryAfterPath(path, q);
    Uri.DigitsArePlain(n);
    Uri.PlainHasNoDelimiter(v);
    Text.SplitNoSep(q, '&');
    Uri.ParamInHead("limit", v, [], name);
    assert [q] + [] == [q];
    Uri.DecodeDigits(n);
  }
}
