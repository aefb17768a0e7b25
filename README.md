# A verified model of the festival admin panel

The admin panel of a college festival is a Next.js application over a
MongoDB store. It lists the festival's events and the registered teams,
exports teams as CSV, and guards every dashboard page behind a sign-in.
This project models its core in Dafny and proves what that core promises.

- **Records** (`models.dfy`). The Event, Team and User schemas, their
  validation (required paths, defaults, the unique email index) and the
  ObjectId cast a filter value goes through.
- **Listing endpoints** (`events_route.dfy`, `teams_route.dfy`, with
  `listing.dfy` and `paging.dfy`). `GET /api/events` and `GET /api/teams`:
  - 401 without a session and 500 when the store fails;
  - the regex search and the event filter;
  - the sort, the skip/limit paging and `pages = ceil(total / limit)`;
  - the in-memory join of events and leaders that the teams endpoint does
    with two maps.
- **Dashboard pages** (`dashboard_page.dfy`, `events_page.dfy`,
  `teams_page.dfy`). The state of each page component and its handlers
  (classes whose methods update the fields in place), the URLs they request,
  the upcoming-events list, the event-type choices, the member list of a
  team and the CSV export.
- **Authentication** (`session.dfy`, `auth_options.dfy`, `lib_auth.dfy`,
  `middleware.dfy`, `dashboard_layout.dfy`):
  - the two credentials checks;
  - the `signIn`, `jwt` and `session` callbacks, which update the session
    and token objects in place;
  - the request middleware and its matcher;
  - the admin guard of the dashboard layout.
- **Seeding scripts** (`event_data.dfy`, `seed_events.dfy`,
  `seed_users.dfy`):
  - the event fixture and `getEventById`;
  - the formatting of fixture events, with their day-month-year dates and
    "a-b" group sizes;
  - the extraction of one user per team-leader email through a `Map`.
- **JavaScript built-ins the behaviour depends on** (`text.dfy`, `uri.dfy`,
  `csv.dfy`, `seqs.dfy`, `base.dfy`):
  - `parseInt`, `trim`, `split` and `join`;
  - `encodeURIComponent` and URL query parsing;
  - JavaScript truthiness and `||` defaults;
  - stable sorting, filtering and finding.

The store is a value `Db(events, teams, users)`. An unreachable store is
`None`. The session, the clock (`now`), the date parser, the date
formatter, `NODE_ENV` and the environment variables are parameters.

Three places where the code and its documented intent part ways:
- `lib/auth.ts` compares the form's password with `user.password`, a path
  the User schema does not declare. The stored user carries it as an
  optional field, on the assumption that an undeclared path of a fetched
  document is readable (see Left out).
- `scripts/seedUsers.js` reads `team.leader.email` as an embedded record,
  although the Team schema stores the leader as an ObjectId. The script is
  modelled on the documents it reads (`TeamDoc`).
- The teams page writes CSV cells with no quoting (see Findings).

## Model

| member | source | states |
|---|---|---|
| ObjectId.Cast | app/api/teams/route.ts:41-43 | a filter value casts exactly when it is 24 hex digits, and then denotes the canonical lower-case id with the same digits |
| ObjectId.CastCanonical | app/api/teams/route.ts:41-43 | an id printed by the server casts back to itself |
| EventModel.MissingPaths | models/Event.ts:17-23 | no path is reported exactly when every required path is present, and only required paths are reported |
| EventModel.Create | models/Event.ts:15-26 | creation succeeds iff the required paths are present; the record keeps the input, team sizes default to 1, both timestamps are the creation time; failure names the missing paths |
| EventModel.SizesAndDeadlineUnchecked | models/Event.ts:21-23 | the schema accepts a minimum team size above the maximum and a deadline after the event |
| TeamModel.MemberErrors | models/Team.ts:40-46 | no member error exactly when every member has its required name and email |
| TeamModel.TeamErrors | models/Team.ts:28-50 | no error exactly when the team input is acceptable: a name, an event id that casts, a leader id that casts when given, valid members |
| TeamModel.StoredMembers | models/Team.ts:40-46 | every member input is stored, in order |
| TeamModel.Create | models/Team.ts:28-50 | creation succeeds iff the input is acceptable; the record keeps name and contact fields, stores the flat `member1`..`member3` under their declared spelling and every member with its name, email and phone, holds the cast event id and the cast leader id (a leader iff one was given), and its registration date defaults to now |
| TeamModel.LeaderOptional | models/Team.ts:32 | a team without a leader is still acceptable and is stored without one |
| UserModel.Create | models/User.ts:12-20 | creation succeeds iff name and email are present; role defaults to 'user', phone is optional |
| UserModel.Insert | models/User.ts:15 | the unique index refuses exactly a valid user whose email is already stored; otherwise the user is appended and emails stay unique |
| Paging.PageCount | app/api/events/route.ts:64 | `ceil(total / limit)`: the fewest pages of `limit` items that hold `total` items |
| Paging.PageBounds | app/api/events/route.ts:41-47 | a page holds at most `limit` items, the consecutive items from position `(page - 1) * limit` |
| Paging.ItemOnItsPage | app/api/events/route.ts:41-47 | item `k` is on page `k / limit + 1`, at position `k % limit`, and that page is one of the counted pages |
| Paging.PastLastPageEmpty | app/api/events/route.ts:41-47 | a page past the last counted page is empty |
| Paging.EarlierPagesFull | app/api/events/route.ts:41-47 | every page before the last is full |
| Paging.SeveralPagesIffOverLimit | app/api/events/route.ts:64 | there is more than one page exactly when there are more items than the limit |
| Paging.FilteredPageSound | app/api/teams/route.ts:51-54 | a page of a filtered, sorted query holds at most `limit` stored elements that satisfy the filter, in key order |
| Paging.FilteredPageComplete | app/api/teams/route.ts:46-54 | every element satisfying the filter appears on one of the counted pages |
| Listing.DefaultParams | app/api/events/route.ts:17-19 | missing or empty parameters read as page 1, limit 10 and an empty search |
| EventsRoute.Views | app/api/events/route.ts:50-61 | one response entry per event, in order, with the event's fields |
| EventsRoute.Get | app/api/events/route.ts:7-82 | 401 without a session, 500 when the store fails; otherwise the requested page of matching events with `total` counting all matches, the echoed page and limit, and `pages = ceil(total / limit)` |
| EventsRoute.QueryIsMatch | app/api/events/route.ts:25-35 | the query selects an event iff the search is empty or title, description, venue or type contains it, ignoring case |
| EventsRoute.EmptySearchSelectsAll | app/api/events/route.ts:25-26 | an empty search counts and lists every event |
| EventsRoute.ListedOrdered | app/api/events/route.ts:44-47 | a page holds at most `limit` events, earliest date first |
| EventsRoute.ListedMatch | app/api/events/route.ts:44-61 | every listed event is a stored event that matches the search |
| EventsRoute.EveryMatchListed | app/api/events/route.ts:38-47 | every matching event is listed on one of the `pages` pages |
| TeamsRoute.BuildQuery | app/api/teams/route.ts:29-43 | the query selects exactly the wanted teams; it has an event condition iff the event id is set and is not 'all', and that condition is the given id |
| TeamsRoute.PageTeamsSound | app/api/teams/route.ts:51-54 | a page holds at most `limit` stored teams, all wanted, newest registration first |
| TeamsRoute.EveryWantedTeamListed | app/api/teams/route.ts:46-54 | every wanted team is on one of the counted pages |
| TeamsRoute.EventRefs | app/api/teams/route.ts:57 | the event ids collected are exactly the non-empty event ids of the page's teams |
| TeamsRoute.LeaderRefs | app/api/teams/route.ts:72 | the leader ids collected are exactly the non-empty leader ids of the page's teams |
| TeamsRoute.PageIds | app/api/teams/route.ts:57-72 | the `new Set` of event and leader ids has no duplicates and the same members as the collected ids |
| TeamsRoute.Index | app/api/teams/route.ts:63-69 | the map built from fetched records has a key exactly for each record's id, mapped to the value of a record with that id |
| TeamsRoute.IndexLastWins | app/api/teams/route.ts:63-69 | a key is bound to the value of the last record with that id: a later `set` overwrites an earlier one |
| TeamsRoute.BuildIndex | app/api/teams/route.ts:78-87 | the `forEach`/`set` loop builds that map |
| TeamsRoute.IndexFilteredHit | app/api/teams/route.ts:60-69 | with unique ids, a fetched record is found under its id with its own value |
| TeamsRoute.IndexFilteredMiss | app/api/teams/route.ts:60-69 | an id no stored record has is not in the map |
| TeamsRoute.Coalesce | app/api/teams/route.ts:108-110 | the member field is the first truthy spelling (`member1`, `Member1`, `member_1`), or '' when none is |
| TeamsRoute.Get | app/api/teams/route.ts:10-139 | 401 without a session, 500 when the store fails or the event id does not cast; otherwise the page of wanted teams, each joined to its stored event and leader, with `total`, the echoed page and limit, and `pages = ceil(total / limit)` |
| TeamsRoute.JoinPage | app/api/teams/route.ts:56-121 | the two lookups and the formatting give every team of the page its expected view |
| TeamsRoute.JoinIsLookup | app/api/teams/route.ts:90-121 | formatting against the two maps equals looking the team's event and leader up in the store |
| TeamsRoute.EventJoin | app/api/teams/route.ts:91-101 | a team's event is the fetched event, or a placeholder titled "Event information not available" when the id is not stored, or none without an id |
| TeamsRoute.LeaderJoin | app/api/teams/route.ts:95-117 | a team's leader is the fetched user when the id is stored, otherwise none |
| DashboardPage.Summaries | app/dashboard/page.tsx:122-128 | each upcoming entry carries id, title, date, venue and type of its event, in order |
| DashboardPage.Load | app/dashboard/page.tsx:91-145 | the stats load iff both responses are pages; the totals are the two `pagination.total`s, the upcoming list is the one `UpcomingOrdered`, `UpcomingFromLoaded` and `UpcomingComplete` describe for the loaded events, and the recent registrations are the teams returned; otherwise the load error |
| DashboardPage.QualifyingSorted | app/dashboard/page.tsx:113-120 | the events from now on are in date order |
| DashboardPage.UpcomingOrdered | app/dashboard/page.tsx:113-121 | at most five upcoming events, earliest first |
| DashboardPage.UpcomingFromLoaded | app/dashboard/page.tsx:118-128 | every upcoming entry is a loaded event dated now or later |
| DashboardPage.UpcomingComplete | app/dashboard/page.tsx:113-128 | a loaded event from now on is listed, unless five events no later than it fill the list |
| DashboardPage.FewUpcomingAllListed | app/dashboard/page.tsx:119-121 | when fewer than five are listed, every event from now on is listed |
| DashboardPage.EventsRequestServed | app/dashboard/page.tsx:95 | the events request is served as page 1, limit 100, no search |
| DashboardPage.TeamsRequestServed | app/dashboard/page.tsx:102 | the teams request is served as page 1, limit 5, no search and no event filter |
| DashboardPage.LimitOnlyServed | app/dashboard/page.tsx:95-102 | a URL carrying only `limit=n` reads back page 1, limit n, empty search and event |
| EventData.GetEventById | data/eventData.js:174-176 | a found event has the id asked for and is in the fixture; nothing is found exactly when no fixture event has that id |
| EventData.FixtureIdsDistinct | data/eventData.js:2-171 | the fixture's ids are distinct |
| EventData.LookupFindsEach | data/eventData.js:174-176 | looking up any fixture event's id finds that event |
| EventsPage.BuildUrl | app/dashboard/events/page.tsx:117-121 | the URL built step by step is the listing URL of the page and search |
| EventsPage.UrlQuery | app/dashboard/events/page.tsx:117-121 | the query string of that URL splits back into its pieces |
| EventsPage.QueryParams | app/dashboard/events/page.tsx:117-121 | the query carries the page, limit 10, and the search exactly when it is non-empty |
| EventsPage.RequestServed | app/dashboard/events/page.tsx:117-123 | the endpoint reads back the page's own page number, limit 10 and search |
| EventsPage.Types | app/dashboard/events/page.tsx:109 | the type of each loaded event, in order |
| EventsPage.EventTypesChoices | app/dashboard/events/page.tsx:108-110 | the type choices are the distinct types of the loaded events, in first-seen order, none for no events |
| EventsPage.FilteredEventsSelect | app/dashboard/events/page.tsx:165-167 | 'all' shows every loaded event; any other type shows exactly the loaded events of that type |
| EventsPage.TypeSearchKeepsType | app/dashboard/events/page.tsx:149-155 | searching for a type's name still matches the events of that type |
| EventsPage.PaginationShownIff | app/dashboard/events/page.tsx:338 | the pagination control shows exactly when there are more events than the limit |
| EventsPage.EventsPage.constructor | app/dashboard/events/page.tsx:89-102 | the initial state: no events, empty search, type 'all', page 1, loading |
| EventsPage.EventsPage.SearchChanged | app/dashboard/events/page.tsx:143-146 | a new search text returns to page 1 and changes nothing else |
| EventsPage.EventsPage.EventTypeChanged | app/dashboard/events/page.tsx:149-157 | a type selection returns to page 1 and replaces the search by the type (cleared for 'all') |
| EventsPage.EventsPage.PageChanged | app/dashboard/events/page.tsx:160-162 | the page control selects a page and changes nothing else |
| EventsPage.EventsPage.FetchEvents | app/dashboard/events/page.tsx:113-140 | a page response replaces the events and pagination; a failure keeps them and sets the load error; loading ends |
| SeedEvents.FormatEvent | scripts/seedEvents.js:44-114 | the step-by-step formatting of a fixture event produces the formatted document, or nothing when its id is not an ObjectId |
| SeedEvents.FormatEvents | scripts/seedEvents.js:44-117 | the batch is formed iff every fixture id is an ObjectId, and then holds each event formatted, in order |
| SeedEvents.DashedSizes | scripts/seedEvents.js:86-89 | an "a-b" size reads as minimum `parseInt(a) or 1` and maximum `parseInt(b) or the minimum` |
| SeedEvents.DashedSizesPositive | scripts/seedEvents.js:86-89 | a dashed size never yields a size below 1 |
| SeedEvents.NonNegativeWithoutMinus | scripts/seedEvents.js:87 | a part without '-' never reads as a negative number |
| SeedEvents.LabelRoundTrip | scripts/seedEvents.js:81-96 | the team-size label the events page shows reads back as the same minimum and maximum |
| SeedEvents.SizesUnordered | scripts/seedEvents.js:86-89 | "5-2" is stored as minimum 5 and maximum 2: the order is not checked |
| SeedEvents.SizesZero | scripts/seedEvents.js:90-94 | "0" is stored as sizes 0 and 0: a plain number skips the `or 1` fallback |
| SeedEvents.SizesLeadingZero | scripts/seedEvents.js:87-89 | "0-3" is stored as minimum 1 and maximum 3 |
| SeedEvents.DigitSizes | scripts/seedEvents.js:86-89 | for numerals a and b, "a-b" reads as (a or 1, b or the minimum) |
| SeedEvents.SizesAbsent | scripts/seedEvents.js:82-85 | a missing or empty group size gives sizes 1 and 1 |
| SeedEvents.YearFirstOf | scripts/seedEvents.js:49-50 | "d-m-y" is rearranged as "y-m-d" |
| SeedEvents.EventDateOf | scripts/seedEvents.js:46-60 | the event date is the parsed "y-m-d" date, or now when it does not parse |
| SeedEvents.DeadlineOf | scripts/seedEvents.js:62-79 | the deadline reads the date before the first space, falling back to the event date |
| SeedEvents.UnspacedDeadlineOf | scripts/seedEvents.js:65-72 | a deadline without a trailing note reads the same way |
| SeedEvents.LabelOrdered | scripts/seedEvents.js:81-96 | a label of ordered sizes reads back as ordered sizes of at least 1 |
| SeedEvents.FixtureGroupSizesListed | data/eventData.js:2-171 | every fixture event has a group size, one of the listed forms |
| SeedEvents.GroupSizesAreLabels | data/eventData.js:2-171 | every fixture group size is a label of ordered one-digit sizes |
| SeedEvents.FixtureSizesOrdered | scripts/seedEvents.js:81-96 | every fixture event is seeded with 1 <= minimum <= maximum |
| SeedUsers.LastLeader | scripts/seedUsers.js:47-57 | the leader recorded for an email has that email |
| SeedUsers.EmailsMembers | scripts/seedUsers.js:48 | an email is collected exactly when some team's leader has it |
| SeedUsers.LastLeaderIsLast | scripts/seedUsers.js:49-56 | the leader kept for an email comes from the last team naming it |
| SeedUsers.LeadersOnePerEmail | scripts/seedUsers.js:46-61 | the seeded users have distinct emails |
| SeedUsers.LeadersCoverEmails | scripts/seedUsers.js:46-61 | a user is seeded for an email exactly when some team's leader has it |
| SeedUsers.LeadersFirstSeenOrder | scripts/seedUsers.js:61 | users come in the order their emails were first met |
| SeedUsers.LeadersLastWins | scripts/seedUsers.js:49-56 | each user holds the name and phone ('' when missing) of the last team naming its email, role 'user', both timestamps now |
| SeedUsers.LeadersEmpty | scripts/seedUsers.js:63-66 | no user is seeded exactly when no team has a leader with an email |
| SeedUsers.LeaderMap.constructor | scripts/seedUsers.js:46 | the map starts empty |
| SeedUsers.LeaderMap.Set | scripts/seedUsers.js:49 | `set` replaces the value of a key and appends a new key at the end of the insertion order |
| SeedUsers.LeaderMap.Values | scripts/seedUsers.js:61 | the values in key insertion order |
| SeedUsers.ExtractLeaders | scripts/seedUsers.js:46-61 | the `forEach` loop over the teams yields exactly the specified leaders |
| SeedUsers.SeedUsers | scripts/seedUsers.js:41-69 | nothing is inserted iff no team qualifies; otherwise the non-empty list of leaders is inserted |
| Middleware.Decide | middleware.ts:9-28 | a public page with a token goes to /dashboard; a non-public, non-/api path without a token goes to /auth/signin; everything else passes |
| Middleware.Handle | middleware.ts:32-37 | unmatched paths pass; matched paths get the decision |
| Middleware.MatchedNotApi | middleware.ts:23-37 | no matched path starts with /api |
| Middleware.DashboardNeedsToken | middleware.ts:23-26 | a guarded dashboard page passes iff a token is present, and otherwise goes to sign-in |
| Middleware.PublicNeedsNoToken | middleware.ts:18-21 | a public page passes iff no token is present, and otherwise goes to the dashboard |
| Middleware.RedirectSettles | middleware.ts:18-28 | following a redirect with the same token passes: there is never a second redirect in a row |
| AuthOptions.AdminEmails | app/api/auth/authOptions.ts:7 | the allow-list entries contain no comma and join back to the variable; an unset or empty variable gives no entry |
| AuthOptions.AdminEmailsOf | app/api/auth/authOptions.ts:7 | comma-free entries written into the variable are read back unchanged, spaces included |
| AuthOptions.Authorize | app/api/auth/authOptions.ts:44-60 | a user is returned iff the form's email and password equal the two variables, and it is user '1', 'Admin User', role 'admin', with that email |
| AuthOptions.AuthorizeNeedsSecrets | app/api/auth/authOptions.ts:47-51 | with both variables set, only that exact email and password are accepted |
| AuthOptions.UnsetSecretsAcceptEmptyForm | app/api/auth/authOptions.ts:47-51 | with both variables unset, a form sending neither field is accepted as the admin |
| AuthOptions.SessionRole | app/api/auth/authOptions.ts:70 | the role is 'admin' exactly for an allow-listed email (a missing email read as ''), otherwise 'user' |
| AuthOptions.SessionCallback | app/api/auth/authOptions.ts:68-73 | the session user's role is set from the allow-list and its other fields are kept; a session without a user is untouched |
| AuthOptions.ProductionSessionsAreAdmin | app/api/auth/authOptions.ts:64-71 | outside development, every user the `signIn` callback admits gets the role 'admin' |
| AuthOptions.CredentialsSignIn | app/api/auth/authOptions.ts:44-71 | a credentials sign-in completes outside development iff the form matches the variables and the admin email is allow-listed, and the session is then an admin session |
| AuthOptions.EmptyEntryAdmitsEmailless | app/api/auth/authOptions.ts:7-70 | an empty allow-list entry (a doubled or trailing comma) makes every email-less session an admin session |
| LibAuth.Authorize | lib/auth.ts:14-46 | no user for a missing field, an unreachable store, an unknown email or a wrong password; otherwise the first user with that email, whose stored password equals the form's |
| LibAuth.AuthorizeIff | lib/auth.ts:22-41 | under the unique email index, sign-in succeeds iff some stored user has that email and exactly that password |
| LibAuth.NoPasswordNoSignIn | lib/auth.ts:30-34 | a stored user without a password can never sign in |
| LibAuth.Jwt | lib/auth.ts:53-59 | on sign-in the token takes the user's id and role; later calls leave it unchanged |
| LibAuth.SessionCallback | lib/auth.ts:60-66 | with a token and a session user, the user's id and role become the token's; name and email are kept |
| LibAuth.SignInThenSession | lib/auth.ts:53-66 | after sign-in and a session read, the session holds the id and stored role of the signed-in user |
| NextAuth.SessionUser.constructor | app/api/auth/authOptions.ts:10-19 | a session user holds the given id, name, email and role |
| NextAuth.Session.constructor | app/api/auth/authOptions.ts:10-19 | a session holds the given user, possibly none |
| NextAuth.Token.constructor | lib/auth.ts:53-59 | a token holds the given id and role |
| DashboardLayout.Guard | app/dashboard/layout.tsx:7-19 | no session goes to sign-in; a non-admin outside development goes to sign-in with AccessDenied; exactly the admins, or anyone in development, see the page |
| DashboardLayout.SignedInAdminRenders | app/dashboard/layout.tsx:15-19 | outside development, a user the `signIn` callback admitted sees the dashboard |
| DashboardLayout.AccessDeniedPath | app/dashboard/layout.tsx:16 | the access-denied location is the sign-in page with a query |
| DashboardLayout.DroppedAdminCycles | app/dashboard/layout.tsx:15-17 | a token holder whose email has left the allow-list is sent to sign-in, sent back to /dashboard by the middleware, and let through to the guard again |
| TeamsPage.BuildUrl | app/dashboard/teams/page.tsx:196-204 | the URL built step by step is the listing URL of the page, limit, search and event selection |
| TeamsPage.QueryParams | app/dashboard/teams/page.tsx:196-204 | the query carries page and limit, the search iff non-empty, and the event iff the selection is not 'all' |
| TeamsPage.UrlRoundTrip | app/dashboard/teams/page.tsx:196-204 | the endpoint reads back the page, limit, search and selected event (none for 'all') |
| TeamsPage.UrlQuery | app/dashboard/teams/page.tsx:196-204 | the query string of that URL splits back into its pieces |
| TeamsPage.RequestServed | app/dashboard/teams/page.tsx:196-206 | every URL the page builds from a valid state is served, with an event id the store accepts |
| TeamsPage.PageRequestsServed | app/dashboard/teams/page.tsx:256-267 | both the list request (limit 10) and the export request (page 1, limit 1000) are served with the page's own filters |
| TeamsPage.GetTeamMembers | app/dashboard/teams/page.tsx:344-366 | the step-by-step collection of member fields gives the specified member list |
| TeamsPage.TeamMembersChoice | app/dashboard/teams/page.tsx:344-366 | the structured members are used iff every flat field is blank and the array is non-empty; otherwise the non-blank flat fields, in order |
| TeamsPage.Row | app/dashboard/teams/page.tsx:289-317 | every exported row has one cell per header |
| TeamsPage.StructuredCellHasComma | app/dashboard/teams/page.tsx:300-302 | a structured member list always puts a comma into the members cell |
| TeamsPage.PlainRowMisaligned | app/dashboard/teams/page.tsx:320-323 | as written, the header splits into 9 fields but a row with structured members into more than 9 |
| TeamsPage.ExportReadsBack | app/dashboard/teams/page.tsx:276-323 | the quoted export reads back as the header and the rows, each with one cell per header |
| TeamsPage.TeamsPage.constructor | app/dashboard/teams/page.tsx:149-166 | the initial state: empty search, event 'all', page 1, no teams, loading |
| TeamsPage.TeamsPage.SearchChanged | app/dashboard/teams/page.tsx:226-229 | a new search returns to page 1 and changes nothing else |
| TeamsPage.TeamsPage.EventChanged | app/dashboard/teams/page.tsx:232-235 | a new event selection returns to page 1 and changes nothing else |
| TeamsPage.TeamsPage.PageChanged | app/dashboard/teams/page.tsx:238-240 | the page control selects a page and changes nothing else |
| TeamsPage.TeamsPage.FetchTeams | app/dashboard/teams/page.tsx:192-223 | a page response replaces teams and pagination; a failure keeps them and sets the load error; loading ends |
| TeamsPage.TeamsPage.ExportToCsv | app/dashboard/teams/page.tsx:249-341 | nothing for an empty page; otherwise the file of the filtered teams with cells joined by ',' and no quoting, or the export error when the request fails; the listing state is kept |
| TeamsPage.FetchExport | app/dashboard/teams/page.tsx:256-323 | the export request asks for page 1 with limit 1000 and the page's filters, and writes the returned teams as unquoted ','-joined lines under the header |
| Csv.PlainLineFields | app/dashboard/teams/page.tsx:321-322 | a line joined by ',' splits into at least as many fields as cells, and into more when a cell holds a comma |
| Csv.QuotedRoundTrip | app/dashboard/teams/page.tsx:320-323 | a document of quoted cells reads back as exactly its rows |
| Text.JoinSplit | app/api/auth/authOptions.ts:7 | joining the parts of a split with the separator gives the text back |
| Text.SplitJoin | app/api/auth/authOptions.ts:7 | splitting a join of separator-free parts gives the parts back |
| Text.ContainsIffOccurs | app/api/events/route.ts:29-32 | the containment check holds iff the needle occurs at some position |
| Text.TrimStartRemovesSpace | scripts/seedEvents.js:87 | trimming the start removes exactly a leading run of white space |
| Text.TrimEndRemovesSpace | scripts/seedEvents.js:87 | trimming the end removes exactly a trailing run of white space |
| Text.BlankIffAllSpace | app/dashboard/teams/page.tsx:348-357 | `trim() !== ''` fails exactly for all-white-space text |
| JsNumber.DigitPrefix | scripts/seedEvents.js:87 | parseInt reads the longest prefix of digits |
| JsNumber.ParseIntOfIntToString | app/api/events/route.ts:17-18 | a number written out in decimal parses back to itself |
| Uri.EncodeComponent | app/dashboard/events/page.tsx:120 | the encoded text holds only unreserved characters and percent escapes |
| Uri.EncodedHasNoDelimiter | app/dashboard/teams/page.tsx:199 | an encoded search holds no '&', '=', '+' or '#' |
| Uri.Utf8RoundTrip | app/dashboard/teams/page.tsx:199 | UTF-8 decoding inverts UTF-8 encoding |
| Uri.DecodeEncode | app/dashboard/teams/page.tsx:199 | decoding an encoded component gives the text back |
| Uri.DecodePlain | app/dashboard/teams/page.tsx:203 | an id of plain characters is sent unencoded and read back unchanged |
| Uri.QueryPiecesBack | app/api/teams/route.ts:19-23 | the query of a URL built from '&'-free pieces splits back into those pieces |
| Uri.ParamInHead | app/api/teams/route.ts:19-23 | the first piece of a query answers for its own name, and the rest for any other name |
| Seqs.Filter | app/dashboard/events/page.tsx:165-167 | every element of the filtered list is an element of the input that satisfies the predicate, and every input element that satisfies it is in the list |
| Seqs.FilterCounts | app/api/events/route.ts:38 | the filtered list holds each accepted element as many times as the input does and nothing else, so its length is the count of matches |
| Seqs.FilterPosition | app/dashboard/events/page.tsx:165-167 | an accepted element is in the filtered list at the position given by the number of accepted elements before it |
| Seqs.FilterKeepsOrder | app/dashboard/events/page.tsx:165-167 | of two accepted elements, the earlier one is placed first: filtering keeps the input's order |
| Seqs.FilterAppend | app/api/events/route.ts:38 | filtering distributes over concatenation |
| Seqs.Distinct | app/dashboard/events/page.tsx:109 | `new Set`: no duplicates and the same elements |
| Seqs.DistinctFirstSeenOrder | app/dashboard/events/page.tsx:109 | the distinct elements keep their first-seen order |
| Seqs.SortBy | app/dashboard/page.tsx:113-115 | the sorted list is ordered by the key and is a permutation of the input |
| Seqs.Insert | app/dashboard/page.tsx:113-115 | inserting into a sorted list keeps it sorted and adds exactly the element |
| Seqs.FilterSorted | app/dashboard/page.tsx:119-120 | filtering a sorted list keeps it sorted |
| Seqs.Window | app/api/events/route.ts:46-47 | `skip(n).limit(m)`: at most m consecutive elements starting at position n |
| Seqs.Find | data/eventData.js:175 | `find`: nothing iff no element satisfies the predicate, otherwise the first that does |
| Seqs.Take | app/dashboard/page.tsx:121 | `slice(0, n)`: the first min(n, length) elements |

## Left out

- Network I/O: `fetch`, the JSON encoding of responses, MongoDB connections, `insertMany` and `deleteMany`, and the console output. Servers are functions from URL to response, and the store is a value.
- The readline prompt of the two seeding scripts, which asks before reseeding, is not modelled. The models start from the formatting step.
- The library internals of `getToken`, `getServerSession`, the OAuth providers, token signing and cookies are not modelled. A session or a token is an input.
- The origin of redirect URLs is not modelled. Locations are paths.
- The event list fetched for the teams page's dropdown is not modelled. The page state instead requires the selection to be 'all' or a canonical id (`TeamsPage.Selectable`).
- The React rendering (layout, skeletons, icons, responsive views) is not modelled.
- EventsRoute.Get: requires that page and limit read as positive numbers and that the search contains no regular-expression metacharacter. A NaN or zero `limit`, and regex search semantics, are outside the model; a literal search is an ASCII case-insensitive substring match.
- TeamsRoute.Get: also requires a valid store (unique, canonical ids and unique emails).
- TeamsRoute.Get: requires the same conditions on `page`, `limit` and `search` as `EventsRoute.Get`.
- Dates are integer timestamps. `toISOString` is the identity.
- `toLocaleDateString` in the CSV export is a parameter (`formatDate`).
- `new Date(text)` in the event seeding script is a parameter (`parseDate`). Its leniency with unusual text is therefore not modelled.
- SeedEvents.FormatEvent: every `new Date()` of one run is the same instant `now`.
- EventData.Fixture: the fixture keeps the fields the lookup and the seeding read. It omits the long descriptions and the coordinator lists, which are copied through unchanged.
- ObjectId values are their 24-digit hexadecimal strings, not the 12-byte binary form.
- JavaScript `parseInt` is modelled for whitespace, sign, `0x` prefix and digit prefix. Radixes other than 10 and 16, and the exponent forms `Number` accepts, are left out.
- Case folding is ASCII only.
- Text is a sequence of code points. UTF-16 surrogate pairs are not modelled.
- Uri.DecodeComponent: a query value whose percent-decoded bytes are not valid UTF-8 reads as absent, so `?search=%FF` searches for ''. `URLSearchParams` puts U+FFFD in place of each malformed sequence instead; that replacement is not modelled.
- LibAuth.Authorize, TeamsRoute.Coalesce, EventsRoute.Views: these read paths the schemas do not declare (`user.password`, `team.Member1`, `team.member_1`, `event.type`) from documents fetched without `.lean()`. The model assumes such a path reads what is stored. Whether a hydrated Mongoose document exposes undeclared paths depends on the Mongoose version, which is not part of this model. If it does not, these reads give `undefined`, and `authorize` of `lib/auth.ts` never succeeds.
- The ordering of equal sort keys: the stable sort fixes the store's natural order, and MongoDB does not specify one.

## Findings

| source | as written | input that shows it | evidently intended | confidence | as-written member | corrected member |
|---|---|---|---|---|---|---|
| app/dashboard/teams/page.tsx:320-323 | cells are joined with ',' and no quoting | a team with blank `member1`..`member3` and one structured member `{name: "A", email: "a@x", phone: "1"}`: the members cell `A (a@x, 1)` holds a comma, so the row splits into 10 fields under a 9-field header | every cell quoted (RFC 4180, section 2), so each row reads back as its 9 cells | not executed | TeamsPage.PlainRowMisaligned | TeamsPage.ExportReadsBack |

The page's `ExportToCsv` writes the file as the code does, with no quoting
(`TeamsPage.PlainExport`). The corrected form quotes every cell
(`TeamsPage.Export`); its round trip is `Csv.QuotedRoundTrip`.
