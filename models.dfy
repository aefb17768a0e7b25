/**
 * Object ids as the panel sees them: the 24-digit hexadecimal string of a
 * MongoDB ObjectId, which `_id.toString()` prints in lower case.
 */
module ObjectId {
  import opened Base
  import opened Text
  import JsNumber

  /** A string a Mongoose ObjectId path accepts: 24 hexadecimal digits. */
  predicate IsHexId(s: string) {
    |s| == 24 && forall i :: 0 <= i < |s| ==> JsNumber.IsHexDigit(s[i])
  }

  /** The form `_id.toString()` prints: 24 lower-case hexadecimal digits. */
  predicate IsCanonical(s: string) {
    IsHexId(s) && forall i :: 0 <= i < |s| ==> !('A' <= s[i] <= 'Z')
  }

  /**
   * Casting a filter value to an ObjectId: a hexadecimal id denotes the id
   * printed in lower case; anything else is a cast error.
   */
  function Cast(s: string): (r: Option<string>)
    ensures r.Some? <==> IsHexId(s)
    ensures r.Some? ==> IsCanonical(r.value) && Lower(r.value) == Lower(s)
  {
    if IsHexId(s) then
      var l := Lower(s);
      assert forall i :: 0 <= i < |l| ==> JsNumber.IsHexDigit(l[i]) by {
        forall i | 0 <= i < |l| ensures JsNumber.IsHexDigit(l[i]) {
          assert JsNumber.IsHexDigit(s[i]);
        }
      }
      assert Lower(l) == l;
      Some(l)
    else None
  }

  /** The id a page sends back, printed by the server, casts to itself. */
  lemma CastCanonical(s: string)
    requires IsCanonical(s)
    ensures Cast(s) == Some(s)
  {
    assert Lower(s) == s;
  }
}

/** The Event record (`models/Event.ts`). */
module EventModel {
  import opened Base

  /**
   * A stored event. Dates are timestamps. The `type` field is not a schema
   * path but stored documents may carry one, so it is optional.
   */
  datatype Event = Event(
    id: string, title: string, description: string, date: int, venue: string,
    maxTeamSize: int, minTeamSize: int, registrationDeadline: int,
    createdAt: int, updatedAt: int, eventType: Option<string>)

  /** The fields an event is created from; `None` is an absent field. */
  datatype EventInput = EventInput(
    title: Option<string>, description: Option<string>, date: Option<int>,
    venue: Option<string>, maxTeamSize: Option<int>, minTeamSize: Option<int>,
    registrationDeadline: Option<int>, eventType: Option<string>)

  /** The required paths of the schema, in declaration order. */
  const RequiredPaths: seq<string> := ["title", "description", "date", "venue", "registrationDeadline"]

  /** What the schema's `required` validators demand of a new event. */
  predicate HasRequired(input: EventInput) {
    Truthy(input.title) && Truthy(input.description) && input.date.Some?
    && Truthy(input.venue) && input.registrationDeadline.Some?
  }

  /** The required paths an input leaves missing, in schema order. */
  function MissingPaths(input: EventInput): (r: seq<string>)
    ensures r == [] <==> HasRequired(input)
    ensures forall i :: 0 <= i < |r| ==> r[i] in RequiredPaths
  {
    (if Truthy(input.title) then [] else ["title"])
    + (if Truthy(input.description) then [] else ["description"])
    + (if input.date.Some? then [] else ["date"])
    + (if Truthy(input.venue) then [] else ["venue"])
    + (if input.registrationDeadline.Some? then [] else ["registrationDeadline"])
  }

  /** A stored event satisfies the schema's validators. */
  predicate Valid(e: Event) {
    e.title != "" && e.description != "" && e.venue != ""
  }

  /**
   * `new Event(input)` validated and saved at time `now`: the team sizes
   * default to 1, the timestamps are `now`, and `type`, not being a schema
   * path, is not stored.
   */
  function Create(input: EventInput, id: string, now: int): (r: Result<Event, seq<string>>)
    ensures r.Ok? <==> HasRequired(input)
    ensures r.Err? ==> r.error != [] && forall i :: 0 <= i < |r.error| ==> r.error[i] in RequiredPaths
    ensures r.Ok? ==> (Valid(r.value) && r.value.id == id
      && r.value.title == input.title.value && r.value.description == input.description.value
      && r.value.date == input.date.value && r.value.venue == input.venue.value
      && r.value.registrationDeadline == input.registrationDeadline.value
      && r.value.maxTeamSize == input.maxTeamSize.GetOr(1)
      && r.value.minTeamSize == input.minTeamSize.GetOr(1)
      && r.value.createdAt == now && r.value.updatedAt == now && r.value.eventType.None?)
  {
    var missing := MissingPaths(input);
    if missing != [] then Err(missing)
    else Ok(Event(id, input.title.value, input.description.value, input.date.value,
      input.venue.value, input.maxTeamSize.GetOr(1), input.minTeamSize.GetOr(1),
      input.registrationDeadline.value, now, now, None))
  }

  /** The schema relates neither the two sizes nor the deadline to the date. */
  lemma SizesAndDeadlineUnchecked()
    ensures var input := EventInput(Some("t"), Some("d"), Some(10), Some("v"), Some(2), Some(5), Some(20), None);
      var r := Create(input, "e", 0);
      r.Ok? && r.value.minTeamSize > r.value.maxTeamSize && r.value.registrationDeadline > r.value.date
  {
  }
}

/** The Team record (`models/Team.ts`). */
module TeamModel {
  import opened Base
  import ObjectId
  import JsNumber

  /** An entry of the structured `members` array. */
  datatype Member = Member(name: string, email: string, phone: Option<string>)

  /**
   * A flat member field as stored documents spell it: `memberN`, `MemberN`
   * or `member_N`.
   */
  datatype MemberSpellings = MemberSpellings(plain: Option<string>, capitalized: Option<string>, underscored: Option<string>)

  /** A stored team; `event` and `leader` hold ObjectId strings. */
  datatype Team = Team(
    id: string, name: string, event: Option<string>, leader: Option<string>,
    phone: Option<string>, email: Option<string>, fullname: Option<string>,
    institution: Option<string>,
    member1: MemberSpellings, member2: MemberSpellings, member3: MemberSpellings,
    members: seq<Member>, registrationDate: int)

  datatype MemberInput = MemberInput(name: Option<string>, email: Option<string>, phone: Option<string>)

  /** The fields a team is created from; `None` is an absent field. */
  datatype TeamInput = TeamInput(
    name: Option<string>, event: Option<string>, leader: Option<string>,
    phone: Option<string>, email: Option<string>, fullname: Option<string>,
    institution: Option<string>,
    member1: Option<string>, member2: Option<string>, member3: Option<string>,
    members: seq<MemberInput>, registrationDate: Option<int>)

  /** A `members` entry satisfies its two `required` validators. */
  predicate MemberOk(m: MemberInput) {
    Truthy(m.name) && Truthy(m.email)
  }

  /** The failing paths `members.<k>.name` / `members.<k>.email` from entry `from` on. */
  function MemberErrors(ms: seq<MemberInput>, from: nat): (r: seq<string>)
    ensures r == [] <==> forall k :: 0 <= k < |ms| ==> MemberOk(ms[k])
    decreases |ms|
  {
    if ms == [] then []
    else
      var prefix := "members." + JsNumber.NatToString(from) + ".";
      var rest := MemberErrors(ms[1..], from + 1);
      assert forall k :: 1 <= k < |ms| ==> ms[k] == ms[1..][k - 1];
      (if Truthy(ms[0].name) then [] else [prefix + "name"])
      + (if Truthy(ms[0].email) then [] else [prefix + "email"])
      + rest
  }

  /** An ObjectId path holds nothing or a castable id. */
  predicate IdOk(s: Option<string>) {
    s.None? || ObjectId.IsHexId(s.value)
  }

  /** What the schema demands of a new team. */
  predicate Acceptable(input: TeamInput) {
    Truthy(input.name) && input.event.Some? && ObjectId.IsHexId(input.event.value)
    && IdOk(input.leader) && forall k :: 0 <= k < |input.members| ==> MemberOk(input.members[k])
  }

  function TeamErrors(input: TeamInput): (r: seq<string>)
    ensures r == [] <==> Acceptable(input)
  {
    (if Truthy(input.name) then [] else ["name"])
    + (if input.event.Some? && ObjectId.IsHexId(input.event.value) then [] else ["event"])
    + (if IdOk(input.leader) then [] else ["leader"])
    + MemberErrors(input.members, 0)
  }

  function Stored(m: MemberInput): Member
    requires MemberOk(m)
  {
    Member(m.name.value, m.email.value, m.phone)
  }

  function StoredMembers(ms: seq<MemberInput>): (r: seq<Member>)
    requires forall k :: 0 <= k < |ms| ==> MemberOk(ms[k])
    ensures |r| == |ms|
    ensures forall k :: 0 <= k < |r| ==> r[k] == Stored(ms[k])
  {
    seq(|ms|, k requires 0 <= k < |ms| => Stored(ms[k]))
  }

  /** A flat member field written through the schema: only the `memberN` spelling exists. */
  function Plain(s: Option<string>): MemberSpellings {
    MemberSpellings(s, None, None)
  }

  function CastId(s: Option<string>): Option<string>
    requires IdOk(s)
  {
    if s.None? then None else ObjectId.Cast(s.value)
  }

  /**
   * `new Team(input)` validated and saved at time `now`: `registrationDate`
   * defaults to `now`, `leader` may be absent, and ids are stored in their
   * printed (lower-case) form.
   */
  function Create(input: TeamInput, id: string, now: int): (r: Result<Team, seq<string>>)
    ensures r.Ok? <==> Acceptable(input)
    ensures r.Err? ==> r.error != []
    ensures r.Ok? ==> (r.value.id == id && r.value.name == input.name.value && r.value.name != ""
      && r.value.event.Some? && ObjectId.IsCanonical(r.value.event.value)
      && r.value.event == ObjectId.Cast(input.event.value)
      && (r.value.leader.Some? <==> input.leader.Some?)
      && r.value.leader == CastId(input.leader)
      && r.value.phone == input.phone && r.value.email == input.email
      && r.value.fullname == input.fullname && r.value.institution == input.institution
      && r.value.member1 == Plain(input.member1) && r.value.member2 == Plain(input.member2)
      && r.value.member3 == Plain(input.member3)
      && r.value.members == StoredMembers(input.members)
      && |r.value.members| == |input.members|
      && (forall k :: 0 <= k < |input.members| ==>
            r.value.members[k].name == input.members[k].name.value
            && r.value.members[k].email == input.members[k].email.value
            && r.value.members[k].phone == input.members[k].phone)
      && r.value.registrationDate == input.registrationDate.GetOr(now))
  {
    var errors := TeamErrors(input);
    if errors != [] then Err(errors)
    else
      Ok(Team(id, input.name.value, ObjectId.Cast(input.event.value), CastId(input.leader),
        input.phone, input.email, input.fullname, input.institution,
        Plain(input.member1), Plain(input.member2), Plain(input.member3),
        StoredMembers(input.members), input.registrationDate.GetOr(now)))
  }

  /** A team without a leader is accepted. */
  lemma LeaderOptional(input: TeamInput)
    requires Acceptable(input)
    ensures Acceptable(input.(leader := None))
    ensures Create(input.(leader := None), "t", 0).Ok? && Create(input.(leader := None), "t", 0).value.leader.None?
  {
  }
}

/** The User record (`models/User.ts`). */
module UserModel {
  import opened Base
  import opened Seqs

  /**
   * A stored user. `password` is not a schema path; the credentials check
   * reads it from the stored document.
   */
  datatype User = User(id: string, name: string, email: string, phone: Option<string>, role: string, password: Option<string>)

  datatype UserInput = UserInput(name: Option<string>, email: Option<string>, phone: Option<string>, role: Option<string>)

  datatype UserError = Invalid(paths: seq<string>) | DuplicateEmail

  /** The `unique` index on `email`. */
  predicate UniqueEmails(users: seq<User>) {
    forall i, j :: 0 <= i < j < |users| ==> users[i].email != users[j].email
  }

  predicate EmailTaken(users: seq<User>, email: string) {
    exists i :: 0 <= i < |users| && users[i].email == email
  }

  /** `new User(input)` validated: `role` defaults to 'user', `phone` may be absent. */
  function Create(input: UserInput, id: string): (r: Result<User, seq<string>>)
    ensures r.Ok? <==> Truthy(input.name) && Truthy(input.email)
    ensures r.Err? ==> r.error != []
    ensures r.Ok? ==> (r.value.id == id && r.value.name == input.name.value
      && r.value.email == input.email.value && r.value.phone == input.phone
      && r.value.role == input.role.GetOr("user") && r.value.password.None?)
  {
    var errors := (if Truthy(input.name) then [] else ["name"]) + (if Truthy(input.email) then [] else ["email"]);
    if errors != [] then Err(errors)
    else Ok(User(id, input.name.value, input.email.value, input.phone, input.role.GetOr("user"), None))
  }

  /**
   * Saving a new user: validation first, then the unique index refuses an
   * email that is already stored.
   */
  function Insert(users: seq<User>, input: UserInput, id: string): (r: Result<seq<User>, UserError>)
    ensures r == Err(DuplicateEmail) <==>
      Truthy(input.name) && Truthy(input.email) && EmailTaken(users, input.email.value)
    ensures r.Ok? ==> (|r.value| == |users| + 1 && r.value[..|users|] == users
      && Create(input, id) == Ok(r.value[|users|]))
    ensures r.Ok? && UniqueEmails(users) ==> UniqueEmails(r.value)
  {
    match Create(input, id)
    case Err(paths) => Err(Invalid(paths))
    case Ok(u) =>
      if EmailTaken(users, u.email) then Err(DuplicateEmail)
      else
        assert (users + [u])[..|users|] == users;
        Ok(users + [u])
  }
}

/** The three collections the panel reads, as sequences in natural order. */
module Store {
  import opened EventModel
  import opened TeamModel
  import opened UserModel
  import ObjectId

  datatype Db = Db(events: seq<Event>, teams: seq<Team>, users: seq<User>)

  /**
   * `_id` is unique within a collection and prints as a canonical id, and so
   * do the ids a team refers to.
   */
  predicate Valid(db: Db) {
    (forall i :: 0 <= i < |db.events| ==> ObjectId.IsCanonical(db.events[i].id))
    && (forall i, j :: 0 <= i < j < |db.events| ==> db.events[i].id != db.events[j].id)
    && (forall i :: 0 <= i < |db.teams| ==> ObjectId.IsCanonical(db.teams[i].id))
    && (forall i, j :: 0 <= i < j < |db.teams| ==> db.teams[i].id != db.teams[j].id)
    && (forall i :: 0 <= i < |db.teams| && db.teams[i].event.Some? ==> ObjectId.IsCanonical(db.teams[i].event.value))
    && (forall i :: 0 <= i < |db.teams| && db.teams[i].leader.Some? ==> ObjectId.IsCanonical(db.teams[i].leader.value))
    && (forall i :: 0 <= i < |db.users| ==> ObjectId.IsCanonical(db.users[i].id))
    && (forall i, j :: 0 <= i < j < |db.users| ==> db.users[i].id != db.users[j].id)
    && UniqueEmails(db.users)
  }
}
