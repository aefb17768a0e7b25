/**
 * The events dashboard page (`app/dashboard/events/page.tsx`): the search,
 * type and page state and its handlers, the listing URL it requests, the
 * type choices and type filter it applies to the loaded page, and the
 * labels it shows.
 */
module EventsPage {
  import opened Base
  import opened Text
  import opened Seqs
  import JsNumber
  import Uri
  import opened Listing
  import opened Paging
  import opened EventModel
  import EventsRoute

  type EventView = EventsRoute.EventView

  const LoadError := "Failed to load events. Please try again later."

  /** The page size the page asks for. */
  const PageSize := 10

  // ------------------------------------------------------------------ URLs

  /** The pieces of the query string: page, limit 10, and the encoded search when there is one. */
  function QueryPieces(page: nat, search: string): seq<string> {
    [Uri.Piece("page", JsNumber.IntToString(page)), Uri.Piece("limit", JsNumber.IntToString(PageSize))]
    + SearchPieces(search)
  }

  const Path := "/api/events"

  function Url(page: nat, search: string): string {
    Uri.WithQuery(Path, QueryPieces(page, search))
  }

  /** The URL built step by step: page and limit, then the encoded search when there is one. */
  method BuildUrl(page: nat, search: string) returns (url: string)
    ensures url == Url(page, search)
  {
    var first := Uri.Piece("page", JsNumber.IntToString(page));
    var second := Uri.Piece("limit", JsNumber.IntToString(PageSize));
    var pieces := [first, second];
    url := Path + "?" + first + "&" + second;
    Uri.WithQueryPair(Path, first, second);
    if search != "" {
      var piece := Uri.Piece("search", Uri.EncodeComponent(search));
      Uri.WithQuerySnoc(Path, pieces, piece);
      url := url + "&" + piece;
      pieces := pieces + [piece];
    }
    assert pieces == QueryPieces(page, search);
  }

  /** The query string of a built URL splits at '&' into exactly the pieces written. */
  lemma UrlQuery(page: nat, search: string)
    ensures Split(Uri.QueryOf(Url(page, search)), '&') == QueryPieces(page, search)
  {
    var q := QueryPieces(page, search);
    Uri.DigitsArePlain(page);
    Uri.DigitsArePlain(PageSize);
    Uri.PlainHasNoDelimiter(JsNumber.IntToString(page));
    Uri.PlainHasNoDelimiter(JsNumber.IntToString(PageSize));
    Uri.EncodedHasNoDelimiter(search);
    Uri.QueryPiecesBack(Path, q);
  }

  /** The optional search piece: the search text for `search` when there is one, nothing for the others. */
  function SearchPieces(search: string): seq<string> {
    if search != "" then [Uri.Piece("search", Uri.EncodeComponent(search))] else []
  }

  lemma SearchParams(search: string)
    ensures Uri.ParamIn(SearchPieces(search), "search") == (if search != "" then Some(search) else None)
    ensures Uri.ParamIn(SearchPieces(search), "page") == None
    ensures Uri.ParamIn(SearchPieces(search), "limit") == None
  {
    if search != "" {
      var v := Uri.EncodeComponent(search);
      Uri.DecodeEncode(search);
      Uri.ParamInHead("search", v, [], "search");
      Uri.ParamInHead("search", v, [], "page");
      Uri.ParamInHead("search", v, [], "limit");
      assert SearchPieces(search) == [Uri.Piece("search", v)] + [];
    }
  }

  /** Each name is answered by its own piece; `search` only when there is one. */
  lemma QueryParams(page: nat, search: string)
    ensures var q := QueryPieces(page, search);
      && Uri.ParamIn(q, "page") == Some(JsNumber.IntToString(page))
      && Uri.ParamIn(q, "limit") == Some(JsNumber.IntToString(PageSize))
      && Uri.ParamIn(q, "search") == (if search != "" then Some(search) else None)
  {
    QueryHead(page, search, "page");
    QueryHead(page, search, "limit");
    QueryHead(page, search, "search");
    QueryLimit(search, "limit");
    QueryLimit(search, "search");
    Uri.DecodeDigits(page);
    Uri.DecodeDigits(PageSize);
    SearchParams(search);
  }

  /** The first piece answers `page` and hands every other name to the rest. */
  lemma QueryHead(page: nat, search: string, name: string)
    ensures Uri.ParamIn(QueryPieces(page, search), name) ==
      if name == "page" then Uri.DecodeComponent(JsNumber.IntToString(page))
      else Uri.ParamIn([Uri.Piece("limit", JsNumber.IntToString(PageSize))] + SearchPieces(search), name)
  {
    var rest := [Uri.Piece("limit", JsNumber.IntToString(PageSize))] + SearchPieces(search);
    Uri.ParamInHead("page", JsNumber.IntToString(page), rest, name);
    assert QueryPieces(page, search) == [Uri.Piece("page", JsNumber.IntToString(page))] + rest;
  }

  /** The second piece answers `limit` and hands every other name to the search piece. */
  lemma QueryLimit(search: string, name: string)
    ensures Uri.ParamIn([Uri.Piece("limit", JsNumber.IntToString(PageSize))] + SearchPieces(search), name) ==
      if name == "limit" then Uri.DecodeComponent(JsNumber.IntToString(PageSize))
      else Uri.ParamIn(SearchPieces(search), name)
  {
    Uri.ParamInHead("limit", JsNumber.IntToString(PageSize), SearchPieces(search), name);
  }

  /**
   * The endpoint serves a URL the page built from a literal search: it reads
   * back the page, the limit of 10 and the search text itself.
   */
  lemma {:induction false} RequestServed(page: nat, search: string)
    requires page >= 1 && IsLiteral(search)
    ensures var url := Url(page, search);
      && Serviceable(url)
      && IntParam(url, "page", "1") == Some(page)
      && IntParam(url, "limit", "10") == Some(PageSize)
      && TextParam(url, "search") == search
  {
    UrlQuery(page, search);
    QueryParams(page, search);
    JsNumber.ParseIntOfIntToString(page);
    JsNumber.ParseIntOfIntToString(PageSize);
  }

  // ------------------------------------------------------ derived values

  function Types(events: seq<EventView>): (r: seq<Option<string>>)
    ensures |r| == |events|
    ensures forall k :: 0 <= k < |r| ==> r[k] == events[k].eventType
  {
    seq(|events|, k requires 0 <= k < |events| => events[k].eventType)
  }

  /**
   * `eventTypes`: the distinct types of the loaded events (an event without
   * one contributes its absence), empty when nothing is loaded.
   */
  function EventTypes(events: seq<EventView>): seq<Option<string>> {
    if |events| > 0 then Distinct(Types(events)) else []
  }

  /** The type choices: each loaded type once, in the order first met, none when nothing is loaded. */
  lemma EventTypesChoices(events: seq<EventView>)
    ensures var r := EventTypes(events);
      && NoDuplicates(r)
      && (forall t :: t in r <==> exists k :: 0 <= k < |events| && events[k].eventType == t)
      && InFirstSeenOrder(Types(events), r)
      && (r == [] <==> events == [])
  {
    var ts := Types(events);
    DistinctSameElements(ts);
    DistinctFirstSeenOrder(ts);
    forall t | t in EventTypes(events)
      ensures exists k :: 0 <= k < |events| && events[k].eventType == t
    {
      var k :| 0 <= k < |ts| && ts[k] == t;
    }
    forall t | exists k :: 0 <= k < |events| && events[k].eventType == t
      ensures t in EventTypes(events)
    {
      var k :| 0 <= k < |events| && events[k].eventType == t;
      assert ts[k] == t;
    }
    if events != [] {
      assert ts[0] in Distinct(ts);
    }
  }

  /** The loaded events of type `eventType`. */
  function OfType(eventType: string): EventView -> bool {
    (e: EventView) => e.eventType == Some(eventType)
  }

  /** `filteredEvents`: every loaded event for 'all', else those of exactly the selected type. */
  function FilteredEvents(events: seq<EventView>, eventType: string): seq<EventView> {
    if eventType == "all" then events else Filter(events, OfType(eventType))
  }

  /**
   * The shown events are the loaded events themselves for 'all'; otherwise
   * an event is shown exactly when it was loaded and has the selected type.
   */
  lemma FilteredEventsSelect(events: seq<EventView>, eventType: string)
    ensures eventType == "all" ==> FilteredEvents(events, eventType) == events
    ensures forall e :: e in FilteredEvents(events, eventType) <==>
      e in events && (eventType == "all" || e.eventType == Some(eventType))
  {
    if eventType != "all" {
      var r := FilteredEvents(events, eventType);
      forall e | e in events && e.eventType == Some(eventType)
        ensures e in r
      {
        var k :| 0 <= k < |events| && events[k] == e;
        assert OfType(eventType)(events[k]);
      }
      forall e | e in r
        ensures e in events && e.eventType == Some(eventType)
      {
        var k :| 0 <= k < |r| && r[k] == e;
        assert OfType(eventType)(r[k]);
      }
    }
  }

  /**
   * Choosing a type searches for it: the endpoint's query, run with that
   * type as the search text, keeps every stored event of that type, so the
   * type filter on the page only narrows what the search found.
   */
  lemma TypeSearchKeepsType(e: Event, eventType: string)
    requires e.eventType == Some(eventType) && eventType != "all"
    ensures EventsRoute.Matches(e, eventType)
  {
    assert IsPrefix(Lower(eventType), Lower(eventType));
    assert RegexMatches(e.eventType, eventType);
  }

  /** The team-size label: the one size when both bounds agree, else `min-max`. */
  function SizeLabel(minTeamSize: int, maxTeamSize: int): string {
    if minTeamSize == maxTeamSize then JsNumber.IntToString(minTeamSize)
    else JsNumber.IntToString(minTeamSize) + "-" + JsNumber.IntToString(maxTeamSize)
  }

  /** The pagination control is shown when there is more than one page. */
  predicate ShowsPagination(p: Pagination) {
    p.pages > 1
  }

  /** For a pagination the endpoint sent, the control is shown exactly when the matches exceed one page. */
  lemma PaginationShownIff(total: nat, page: int, limit: int)
    requires limit >= 1
    ensures ShowsPagination(Pagination(total, page, limit, PageCount(total, limit))) <==> total > limit
  {
    SeveralPagesIffOverLimit(total, limit);
  }

  // ----------------------------------------------------------------- state

  /** The page's state: the loaded page of events and the filters that produced it. */
  class EventsPage {
    var events: seq<EventView>
    var search: string
    var eventType: string
    var page: nat
    var pagination: Pagination
    var error: string
    var loading: bool

    predicate Valid()
      reads this
    {
      page >= 1
    }

    /** The initial state: nothing loaded, no search, every type, page 1. */
    constructor ()
      ensures Valid()
      ensures events == [] && search == "" && eventType == "all" && page == 1
      ensures pagination == Pagination(0, 1, PageSize, 1)
      ensures error == "" && loading
    {
      events := [];
      search := "";
      eventType := "all";
      page := 1;
      pagination := Pagination(0, 1, PageSize, 1);
      error := "";
      loading := true;
    }

    /** `handleSearchChange`: the new search text, back to page 1. */
    method SearchChanged(value: string)
      modifies this
      ensures Valid()
      ensures search == value && page == 1
      ensures eventType == old(eventType) && events == old(events)
      ensures pagination == old(pagination) && error == old(error) && loading == old(loading)
    {
      search := value;
      page := 1;
    }

    /**
     * `handleEventTypeChange`: the new type; its name becomes the search
     * text, and 'all' clears the search; back to page 1.
     */
    method EventTypeChanged(value: string)
      modifies this
      ensures Valid()
      ensures eventType == value && page == 1
      ensures search == (if value != "all" then value else "")
      ensures events == old(events) && pagination == old(pagination)
      ensures error == old(error) && loading == old(loading)
    {
      eventType := value;
      if value != "all" {
        search := value;
      } else {
        search := "";
      }
      page := 1;
    }

    /** `handlePageChange`: the page the pagination control chose. */
    method PageChanged(value: nat)
      requires value >= 1
      modifies this
      ensures Valid()
      ensures page == value
      ensures search == old(search) && eventType == old(eventType) && events == old(events)
      ensures pagination == old(pagination) && error == old(error) && loading == old(loading)
    {
      page := value;
    }

    /**
     * `fetchEvents`: asks `server` for the current page and search. A page
     * replaces the loaded events and the pagination; a failure keeps them
     * and sets the error message.
     */
    method FetchEvents(server: string -> Listing.Response<EventView>)
      requires Valid()
      modifies this
      ensures Valid()
      ensures var resp := server(Url(old(page), old(search)));
        && (resp.Page? ==> events == resp.items && pagination == resp.pagination && error == old(error))
        && (resp.Failure? ==> events == old(events) && pagination == old(pagination) && error == LoadError)
      ensures !loading
      ensures search == old(search) && eventType == old(eventType) && page == old(page)
    {
      loading := true;
      var url := BuildUrl(page, search);
      var resp := server(url);
      if resp.Page? {
        events := resp.items;
        pagination := resp.pagination;
      } else {
        error := LoadError;
      }
      loading := false;
    }
  }
}
