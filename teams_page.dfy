/**
 * The teams dashboard page (`app/dashboard/teams/page.tsx`): the filter
 * state and its handlers, the listing and export URLs it requests, the
 * member list it shows for a team and the CSV file it exports.
 */
module TeamsPage {
  import opened Base
  import opened Text
  import opened Seqs
  import JsNumber
  import Uri
  import ObjectId
  import opened Listing
  import opened Paging
  import opened TeamModel
  import opened TeamsRoute
  import Csv

  // ------------------------------------------------------------------ URLs

  /** The event selection restricts the listing: it is set and is not 'all'. */
  predicate Filtering(selectedEvent: string) {
    selectedEvent != "" && selectedEvent != "all"
  }

  /** The optional pieces: the encoded search when there is one, the event id (not encoded) when filtering. */
  function Tail(search: string, selectedEvent: string): seq<string> {
    (if search != "" then [Uri.Piece("search", Uri.EncodeComponent(search))] else [])
    + (if Filtering(selectedEvent) then [Uri.Piece("eventId", selectedEvent)] else [])
  }

  /** The pieces of the query string the page writes, in order. */
  function QueryPieces(page: nat, limit: nat, search: string, selectedEvent: string): seq<string> {
    [Uri.Piece("page", JsNumber.IntToString(page)), Uri.Piece("limit", JsNumber.IntToString(limit))]
    + Tail(search, selectedEvent)
  }

  const Path := "/api/teams"

  function Url(page: nat, limit: nat, search: string, selectedEvent: string): string {
    Uri.WithQuery(Path, QueryPieces(page, limit, search, selectedEvent))
  }

  /**
   * The URL built step by step: page and limit, then the encoded search
   * when there is one, then the event id (not encoded) when filtering.
   */
  method BuildUrl(page: nat, limit: nat, search: string, selectedEvent: string) returns (url: string)
    ensures url == Url(page, limit, search, selectedEvent)
  {
    var first := Uri.Piece("page", JsNumber.IntToString(page));
    var second := Uri.Piece("limit", JsNumber.IntToString(limit));
    var pieces := [first, second];
    url := Path + "?" + first + "&" + second;
    Uri.WithQueryPair(Path, first, second);
    if search != "" {
      var piece := Uri.Piece("search", Uri.EncodeComponent(search));
      Uri.WithQuerySnoc(Path, pieces, piece);
      url := url + "&" + piece;
      pieces := pieces + [piece];
    }
    if selectedEvent != "" && selectedEvent != "all" {
      var piece := Uri.Piece("eventId", selectedEvent);
      Uri.WithQuerySnoc(Path, pieces, piece);
      url := url + "&" + piece;
      pieces := pieces + [piece];
    }
    assert pieces == QueryPieces(page, limit, search, selectedEvent);
  }

  /** The event piece answers for `eventId` when filtering and never for `search`. */
  lemma EventParams(selectedEvent: string)
    requires Uri.IsPlain(selectedEvent)
    ensures var e: seq<string> := if Filtering(selectedEvent) then [Uri.Piece("eventId", selectedEvent)] else [];
      && Uri.ParamIn(e, "search") == None
      && Uri.ParamIn(e, "eventId") == (if Filtering(selectedEvent) then Some(selectedEvent) else None)
  {
    EventParam(selectedEvent, "search");
    EventParam(selectedEvent, "eventId");
    if Filtering(selectedEvent) {
      Uri.DecodePlain(selectedEvent);
    }
  }

  /** The event piece answers for `eventId` alone. */
  lemma EventParam(selectedEvent: string, name: string)
    ensures Uri.ParamIn([Uri.Piece("eventId", selectedEvent)], name) ==
      if name == "eventId" then Uri.DecodeComponent(selectedEvent) else None
  {
    Uri.ParamInHead("eventId", selectedEvent, [], name);
    assert [Uri.Piece("eventId", selectedEvent)] == [Uri.Piece("eventId", selectedEvent)] + [];
  }

  lemma TailParams(search: string, selectedEvent: string)
    requires Uri.IsPlain(selectedEvent)
    ensures Uri.ParamIn(Tail(search, selectedEvent), "search") == (if search != "" then Some(search) else None)
    ensures Uri.ParamIn(Tail(search, selectedEvent), "eventId") == (if Filtering(selectedEvent) then Some(selectedEvent) else None)
  {
    var e: seq<string> := if Filtering(selectedEvent) then [Uri.Piece("eventId", selectedEvent)] else [];
    EventParams(selectedEvent);
    if search != "" {
      Uri.DecodeEncode(search);
      SearchHead(search, e, "search");
      SearchHead(search, e, "eventId");
    } else {
      assert Tail(search, selectedEvent) == e;
    }
  }

  lemma SearchHead(search: string, rest: seq<string>, name: string)
    ensures Uri.ParamIn([Uri.Piece("search", Uri.EncodeComponent(search))] + rest, name) ==
      if name == "search" then Uri.DecodeComponent(Uri.EncodeComponent(search)) else Uri.ParamIn(rest, name)
  {
    Uri.ParamInHead("search", Uri.EncodeComponent(search), rest, name);
  }


  /** The page and limit pieces answer for their names and pass the others on. */
  lemma HeadParams(p0: string, p1: string, t: seq<string>)
    ensures var q := [Uri.Piece("page", p0), Uri.Piece("limit", p1)] + t;
      && Uri.ParamIn(q, "page") == Uri.DecodeComponent(p0)
      && Uri.ParamIn(q, "limit") == Uri.DecodeComponent(p1)
      && Uri.ParamIn(q, "search") == Uri.ParamIn(t, "search")
      && Uri.ParamIn(q, "eventId") == Uri.ParamIn(t, "eventId")
  {
    HeadParam(p0, p1, t, "page");
    HeadParam(p0, p1, t, "limit");
    HeadParam(p0, p1, t, "search");
    HeadParam(p0, p1, t, "eventId");
  }

  /** The page and limit pieces answer for one name, or pass it on. */
  lemma HeadParam(p0: string, p1: string, t: seq<string>, name: string)
    ensures Uri.ParamIn([Uri.Piece("page", p0), Uri.Piece("limit", p1)] + t, name) ==
      if name == "page" then Uri.DecodeComponent(p0)
      else if name == "limit" then Uri.DecodeComponent(p1)
      else Uri.ParamIn(t, name)
  {
    var rest := [Uri.Piece("limit", p1)] + t;
    Uri.ParamInHead("limit", p1, t, name);
    PageHead(p0, rest, name);
    assert [Uri.Piece("page", p0), Uri.Piece("limit", p1)] + t == [Uri.Piece("page", p0)] + rest;
  }

  lemma PageHead(p0: string, rest: seq<string>, name: string)
    ensures Uri.ParamIn([Uri.Piece("page", p0)] + rest, name) ==
      if name == "page" then Uri.DecodeComponent(p0) else Uri.ParamIn(rest, name)
  {
    Uri.ParamInHead("page", p0, rest, name);
  }

  lemma QueryParams(page: nat, limit: nat, search: string, selectedEvent: string)
    requires Uri.IsPlain(selectedEvent)
    ensures var q := QueryPieces(page, limit, search, selectedEvent);
      && Uri.ParamIn(q, "page") == Some(JsNumber.IntToString(page))
      && Uri.ParamIn(q, "limit") == Some(JsNumber.IntToString(limit))
      && Uri.ParamIn(q, "search") == (if search != "" then Some(search) else None)
      && Uri.ParamIn(q, "eventId") == (if Filtering(selectedEvent) then Some(selectedEvent) else None)
  {
    Uri.DecodeDigits(page);
    Uri.DecodeDigits(limit);
    TailParams(search, selectedEvent);
    HeadParams(JsNumber.IntToString(page), JsNumber.IntToString(limit), Tail(search, selectedEvent));
  }

  /**
   * What the listing endpoint reads from a URL the page built: the page and
   * limit that were written, the search text itself (encoding undone), and
   * the event id when filtering, else nothing.
   */
  lemma {:induction false} UrlRoundTrip(page: nat, limit: nat, search: string, selectedEvent: string)
    requires Uri.IsPlain(selectedEvent)
    ensures var url := Url(page, limit, search, selectedEvent);
      && IntParam(url, "page", "1") == Some(page)
      && IntParam(url, "limit", "10") == Some(limit)
      && TextParam(url, "search") == search
      && TextParam(url, "eventId") == (if Filtering(selectedEvent) then selectedEvent else "")
  {
    UrlQuery(page, limit, search, selectedEvent);
    QueryParams(page, limit, search, selectedEvent);
    JsNumber.ParseIntOfIntToString(page);
    JsNumber.ParseIntOfIntToString(limit);
  }

  /** The query string of a built URL splits at '&' into exactly the pieces written. */
  lemma UrlQuery(page: nat, limit: nat, search: string, selectedEvent: string)
    requires Uri.IsPlain(selectedEvent)
    ensures Split(Uri.QueryOf(Url(page, limit, search, selectedEvent)), '&') == QueryPieces(page, limit, search, selectedEvent)
  {
    var q := QueryPieces(page, limit, search, selectedEvent);
    PiecesHaveNoAmpersand(page, limit, search, selectedEvent);
    Uri.QueryPiecesBack(Path, q);
  }

  lemma PiecesHaveNoAmpersand(page: nat, limit: nat, search: string, selectedEvent: string)
    requires Uri.IsPlain(selectedEvent)
    ensures var q := QueryPieces(page, limit, search, selectedEvent);
      forall k :: 0 <= k < |q| ==> '&' !in q[k]
  {
    Uri.DigitsArePlain(page);
    Uri.DigitsArePlain(limit);
    Uri.PlainHasNoDelimiter(JsNumber.IntToString(page));
    Uri.PlainHasNoDelimiter(JsNumber.IntToString(limit));
    Uri.PlainHasNoDelimiter(selectedEvent);
    Uri.EncodedHasNoDelimiter(search);
  }

  /** The selections the event dropdown offers: 'all' or the id of a listed event. */
  predicate Selectable(selectedEvent: string) {
    selectedEvent == "all" || ObjectId.IsCanonical(selectedEvent)
  }

  /**
   * A URL the page builds from its state is always served: the endpoint
   * reads back the state's page, limit, search and event (none for 'all'),
   * and the event id it reads is one the store can be queried with.
   */
  lemma RequestServed(page: nat, limit: nat, search: string, selectedEvent: string)
    requires page >= 1 && limit >= 1 && IsLiteral(search) && Selectable(selectedEvent)
    ensures var url := Url(page, limit, search, selectedEvent);
      && Serviceable(url)
      && IntParam(url, "page", "1") == Some(page)
      && IntParam(url, "limit", "10") == Some(limit)
      && TextParam(url, "search") == search
      && TextParam(url, "eventId") == (if selectedEvent == "all" then "" else selectedEvent)
      && EventIdUsable(TextParam(url, "eventId"))
  {
    assert Uri.IsPlain(selectedEvent) by {
      forall i | 0 <= i < |selectedEvent|
        ensures ('A' <= selectedEvent[i] <= 'Z') || ('a' <= selectedEvent[i] <= 'z') || ('0' <= selectedEvent[i] <= '9')
      {
        if selectedEvent != "all" {
          assert JsNumber.IsHexDigit(selectedEvent[i]);
        }
      }
    }
    UrlRoundTrip(page, limit, search, selectedEvent);
  }

  // --------------------------------------------------------------- members

  /** What `getTeamMembers` gives: the flat member strings, or the structured members. */
  datatype MemberList = Flat(entries: seq<string>) | Structured(members: seq<Member>)

  predicate Present(s: string) {
    !IsBlank(s)
  }

  /** The at most one-element list of a field: the field when it is present. */
  function Keep(s: string): (r: seq<string>)
    ensures r == [] <==> !Present(s)
  {
    if Present(s) then [s] else []
  }

  /**
   * The flat fields `member1..member3` that hold something other than
   * white space, in that order; the structured `members` only when there is
   * no such field and the array is not empty.
   */
  function TeamMembers(t: TeamView): MemberList {
    var flat := Keep(t.member1) + Keep(t.member2) + Keep(t.member3);
    if flat == [] && |t.members| > 0 then Structured(t.members) else Flat(flat)
  }

  /** `getTeamMembers`: push each present flat field, then fall back to `members`. */
  method GetTeamMembers(t: TeamView) returns (r: MemberList)
    ensures r == TeamMembers(t)
  {
    assert IsBlank("");
    var memberEmails: seq<string> := [];
    if t.member1 != "" && !IsBlank(t.member1) {
      memberEmails := memberEmails + [t.member1];
    }
    if t.member2 != "" && !IsBlank(t.member2) {
      memberEmails := memberEmails + [t.member2];
    }
    if t.member3 != "" && !IsBlank(t.member3) {
      memberEmails := memberEmails + [t.member3];
    }
    if |memberEmails| == 0 && |t.members| > 0 {
      return Structured(t.members);
    }
    return Flat(memberEmails);
  }

  /**
   * The structured list is chosen exactly when all three flat fields are
   * blank and `members` is not empty, and it is `members` itself; the flat
   * list holds the present fields and each present field is in it.
   */
  lemma TeamMembersChoice(t: TeamView)
    ensures TeamMembers(t).Structured? <==>
      (IsBlank(t.member1) && IsBlank(t.member2) && IsBlank(t.member3) && |t.members| > 0)
    ensures TeamMembers(t).Structured? ==> TeamMembers(t).members == t.members
    ensures TeamMembers(t).Flat? ==>
      var es := TeamMembers(t).entries;
      && |es| <= 3
      && (forall k :: 0 <= k < |es| ==> Present(es[k]) && es[k] in [t.member1, t.member2, t.member3])
      && (Present(t.member1) ==> |es| >= 1 && es[0] == t.member1)
      && (Present(t.member2) ==> t.member2 in es)
      && (Present(t.member3) ==> |es| >= 1 && es[|es| - 1] == t.member3)
  {
    var k1, k2, k3 := Keep(t.member1), Keep(t.member2), Keep(t.member3);
    var es := k1 + k2 + k3;
    assert |es| <= 3;
    forall k | 0 <= k < |es|
      ensures Present(es[k]) && es[k] in [t.member1, t.member2, t.member3]
    {
      if k < |k1| {
        assert es[k] == t.member1;
      } else if k < |k1| + |k2| {
        assert es[k] == t.member2;
      } else {
        assert es[k] == t.member3;
      }
    }
    if Present(t.member2) {
      assert es[|k1|] == t.member2;
    }
  }

  // ------------------------------------------------------------------- CSV

  const Headers: seq<string> := [
    "Team ID", "Team Name", "Event", "Leader Name", "Leader Email",
    "Leader Phone", "Institution", "Members", "Registration Date"]

  /** A structured member as the export writes it: `name (email, phone)`, phone 'N/A' when absent. */
  function MemberText(m: Member): string {
    m.name + " (" + m.email + ", " + OrDefault(m.phone, "N/A") + ")"
  }

  function MemberTexts(ms: seq<Member>): (r: seq<string>)
    ensures |r| == |ms|
    ensures forall k :: 0 <= k < |r| ==> r[k] == MemberText(ms[k])
  {
    seq(|ms|, k requires 0 <= k < |ms| => MemberText(ms[k]))
  }

  /** The members cell: the member list joined by '; ' (empty when there is none). */
  function MembersCell(t: TeamView): string {
    match TeamMembers(t)
    case Flat(es) => Join(es, "; ")
    case Structured(ms) => Join(MemberTexts(ms), "; ")
  }

  /**
   * One exported row, with its fallbacks: 'No Event', the fullname or
   * 'Unknown Leader', the team's own email and phone when there is no
   * leader, 'Not specified'; the date is rendered by `formatDate`.
   */
  function Row(t: TeamView, formatDate: int -> string): (r: seq<string>)
    ensures |r| == |Headers|
  {
    [ t.id,
      t.name,
      if t.event.Some? then t.event.value.title else "No Event",
      if t.leader.Some? then t.leader.value.name
      else if t.fullname != "" then t.fullname else "Unknown Leader",
      if t.leader.Some? then t.leader.value.email else t.email,
      if t.leader.Some? then OrEmpty(t.leader.value.phone) else t.phone,
      if t.institution != "" then t.institution else "Not specified",
      MembersCell(t),
      formatDate(t.registrationDate) ]
  }

  function Rows(teams: seq<TeamView>, formatDate: int -> string): (r: seq<seq<string>>)
    ensures |r| == |teams|
    ensures forall k :: 0 <= k < |r| ==> r[k] == Row(teams[k], formatDate)
  {
    seq(|teams|, k requires 0 <= k < |teams| => Row(teams[k], formatDate))
  }

  function PlainLines(rows: seq<seq<string>>): (r: seq<string>)
    ensures |r| == |rows|
    ensures forall k :: 0 <= k < |r| ==> r[k] == Csv.PlainLine(rows[k])
  {
    seq(|rows|, k requires 0 <= k < |rows| => Csv.PlainLine(rows[k]))
  }

  /** The export as the page writes it: header and rows, cells joined by ',' with no quoting. */
  function PlainExport(teams: seq<TeamView>, formatDate: int -> string): string {
    Join(PlainLines([Headers] + Rows(teams, formatDate)), "\n")
  }

  /** The export with every cell quoted: what the file is meant to hold. */
  function Export(teams: seq<TeamView>, formatDate: int -> string): string {
    Csv.QuotedDocument([Headers] + Rows(teams, formatDate))
  }

  /** A structured member list always puts a ',' into the members cell. */
  lemma StructuredCellHasComma(t: TeamView)
    requires TeamMembers(t).Structured?
    ensures ',' in MembersCell(t)
  {
    var ms := TeamMembers(t).members;
    var texts := MemberTexts(ms);
    var m := ms[0];
    assert MemberText(m)[|m.name| + |m.email| + 2] == ',';
    if |texts| > 1 {
      assert Join(texts, "; ") == texts[0] + "; " + Join(texts[1..], "; ");
      assert Join(texts, "; ")[|m.name| + |m.email| + 2] == ',';
    }
  }

  /**
   * The header line splits into its nine names, but the line of a team with
   * structured members splits into more than nine fields: the members cell
   * spills into the columns after it.
   */
  lemma PlainRowMisaligned(t: TeamView, formatDate: int -> string)
    requires TeamMembers(t).Structured?
    ensures |Split(Csv.PlainLine(Headers), ',')| == |Headers|
    ensures |Split(Csv.PlainLine(Row(t, formatDate)), ',')| > |Headers|
  {
    SplitJoin(Headers, ',');
    var r := Row(t, formatDate);
    StructuredCellHasComma(t);
    assert ',' in r[7];
    Csv.PlainLineFields(r);
  }

  /** Reading the quoted export gives back the header and exactly one nine-cell row per team. */
  lemma ExportReadsBack(teams: seq<TeamView>, formatDate: int -> string)
    ensures Csv.ReadDocument(Export(teams, formatDate)) == Some([Headers] + Rows(teams, formatDate))
    ensures forall k :: 0 <= k < |teams| ==> |Rows(teams, formatDate)[k]| == |Headers|
  {
    Csv.QuotedRoundTrip([Headers] + Rows(teams, formatDate));
  }

  // ------------------------------------------------------------ page state

  const LoadError := "Failed to load teams. Please try again later."
  const ExportError := "Failed to export data. Please try again."

  /** The state of the page component. */
  class TeamsPage {
    var search: string
    var selectedEvent: string
    var page: nat
    var teams: seq<TeamView>
    var pagination: Pagination
    var error: string
    var loading: bool
    var exportLoading: bool

    /** Page numbers count from 1 and the event selection is one the dropdown offers. */
    predicate Valid()
      reads this
    {
      page >= 1 && Selectable(selectedEvent)
    }

    constructor()
      ensures Valid()
      ensures search == "" && selectedEvent == "all" && page == 1
      ensures teams == [] && pagination == Pagination(0, 1, 10, 1)
      ensures error == "" && loading && !exportLoading
    {
      search := "";
      selectedEvent := "all";
      page := 1;
      teams := [];
      pagination := Pagination(0, 1, 10, 1);
      error := "";
      loading := true;
      exportLoading := false;
    }

    /** `handleSearchChange`: a new search text starts again from page 1. */
    method SearchChanged(value: string)
      requires Valid()
      modifies this
      ensures Valid()
      ensures search == value && page == 1
      ensures selectedEvent == old(selectedEvent) && teams == old(teams) && pagination == old(pagination)
      ensures error == old(error) && loading == old(loading) && exportLoading == old(exportLoading)
    {
      search := value;
      page := 1;
    }

    /** `handleEventChange`: a new event selection starts again from page 1. */
    method EventChanged(value: string)
      requires Valid() && Selectable(value)
      modifies this
      ensures Valid()
      ensures selectedEvent == value && page == 1
      ensures search == old(search) && teams == old(teams) && pagination == old(pagination)
      ensures error == old(error) && loading == old(loading) && exportLoading == old(exportLoading)
    {
      selectedEvent := value;
      page := 1;
    }

    /** `handlePageChange`: the pagination control selects a page. */
    method PageChanged(value: nat)
      requires Valid() && value >= 1
      modifies this
      ensures Valid()
      ensures page == value
      ensures search == old(search) && selectedEvent == old(selectedEvent)
      ensures teams == old(teams) && pagination == old(pagination)
      ensures error == old(error) && loading == old(loading) && exportLoading == old(exportLoading)
    {
      page := value;
    }

    /**
     * `fetchTeams`: request the current page (limit 10) with the current
     * filters from `server`; a page response replaces the teams and the
     * pagination, a failure sets the load error.
     */
    method FetchTeams(server: string -> Response<TeamView>)
      requires Valid()
      modifies this
      ensures Valid()
      ensures var r := server(Url(old(page), 10, old(search), old(selectedEvent)));
        && (r.Page? ==> teams == r.items && pagination == r.pagination && error == old(error))
        && (r.Failure? ==> teams == old(teams) && pagination == old(pagination) && error == LoadError)
      ensures search == old(search) && selectedEvent == old(selectedEvent) && page == old(page)
      ensures !loading && exportLoading == old(exportLoading)
    {
      loading := true;
      var url := BuildUrl(page, 10, search, selectedEvent);
      var r := server(url);
      if r.Page? {
        teams := r.items;
        pagination := r.pagination;
      } else {
        error := LoadError;
      }
      loading := false;
    }

    /**
     * `exportToCSV`: nothing when the current page is empty; otherwise
     * the export of the teams the server returns for the current filters,
     * or the export error when the request fails.
     */
    method ExportToCsv(server: string -> Response<TeamView>, formatDate: int -> string) returns (file: Option<string>)
      requires Valid()
      modifies this
      ensures Valid()
      ensures old(teams) == [] ==> file.None? && exportLoading == old(exportLoading) && error == old(error)
      ensures old(teams) != [] ==> file == ExportFile(server, search, selectedEvent, formatDate) && !exportLoading
      ensures old(teams) != [] && file.Some? ==> error == old(error)
      ensures old(teams) != [] && file.None? ==> error == ExportError
      ensures search == old(search) && selectedEvent == old(selectedEvent) && page == old(page)
      ensures teams == old(teams) && pagination == old(pagination) && loading == old(loading)
    {
      if |teams| == 0 {
        return None;
      }
      exportLoading := true;
      file := FetchExport(server, search, selectedEvent, formatDate);
      if file.None? {
        error := ExportError;
      }
      exportLoading := false;
    }
  }

  /**
   * The file an export produces: the teams the server returns for page 1,
   * limit 1000 and the given filters, written out as the page writes them
   * (cells joined by ',' with no quoting); nothing when the request fails.
   */
  function ExportFile(server: string -> Response<TeamView>, search: string, selectedEvent: string,
                      formatDate: int -> string): Option<string>
  {
    var r := server(Url(1, 1000, search, selectedEvent));
    if r.Page? then Some(PlainExport(r.items, formatDate)) else None
  }

  /** The export request and the writing of its result. */
  method FetchExport(server: string -> Response<TeamView>, search: string, selectedEvent: string,
                     formatDate: int -> string) returns (file: Option<string>)
    ensures file == ExportFile(server, search, selectedEvent, formatDate)
  {
    var url := BuildUrl(1, 1000, search, selectedEvent);
    var r := server(url);
    if r.Page? {
      file := Some(PlainExport(r.items, formatDate));
    } else {
      file := None;
    }
  }

  /**
   * Every request the page makes is served by the listing endpoint with the
   * state's own filters: the list URL asks for the current page with limit
   * 10, the export URL for page 1 with limit 1000.
   */
  lemma PageRequestsServed(page: nat, search: string, selectedEvent: string)
    requires page >= 1 && IsLiteral(search) && Selectable(selectedEvent)
    ensures Serviceable(Url(page, 10, search, selectedEvent))
    ensures Serviceable(Url(1, 1000, search, selectedEvent))
    ensures TextParam(Url(1, 1000, search, selectedEvent), "search") == search
    ensures IntParam(Url(1, 1000, search, selectedEvent), "limit", "10") == Some(1000)
  {
    RequestServed(page, 10, search, selectedEvent);
    RequestServed(1, 1000, search, selectedEvent);
  }
}
