/**
 * Seeding the users collection from the stored teams (`scripts/seedUsers.js`):
 * one user per distinct team-leader email, in the order in which the emails
 * were first met, each holding the data of the last team that named it.
 */
module SeedUsers {
  import opened Base
  import opened Seqs

  /** A team's `leader` as the script reads it: an embedded record. */
  datatype LeaderDoc = LeaderDoc(name: Option<string>, email: Option<string>, phone: Option<string>)

  /** A stored team document; the script reads only its leader. */
  datatype TeamDoc = TeamDoc(leader: Option<LeaderDoc>)

  /** A user document as the script inserts it; `name` is copied even when absent. */
  datatype SeedUser = SeedUser(
    name: Option<string>, email: string, phone: string, role: string,
    createdAt: int, updatedAt: int)

  /** A team contributes a user when it has a leader with a non-empty email. */
  predicate Qualifies(t: TeamDoc) {
    t.leader.Some? && Truthy(t.leader.value.email)
  }

  /** The team contributes a user under the email `e`. */
  predicate HasEmail(t: TeamDoc, e: string) {
    Qualifies(t) && t.leader.value.email.value == e
  }

  /** The user built from a leader: phone `''` when absent, role 'user', both timestamps `now`. */
  function UserOf(l: LeaderDoc, now: int): SeedUser
    requires Truthy(l.email)
  {
    SeedUser(l.name, l.email.value, OrEmpty(l.phone), "user", now, now)
  }

  /** The emails of the qualifying leaders, in team order, repeats included. */
  function Emails(teams: seq<TeamDoc>): seq<string>
    decreases |teams|
  {
    if teams == [] then []
    else
      var n := |teams| - 1;
      Emails(teams[..n]) + (if Qualifies(teams[n]) then [teams[n].leader.value.email.value] else [])
  }

  /** The leader of the last team that names `e`, if any. */
  function LastLeader(teams: seq<TeamDoc>, e: string): (r: Option<LeaderDoc>)
    ensures r.Some? ==> Truthy(r.value.email) && r.value.email.value == e
    decreases |teams|
  {
    if teams == [] then None
    else
      var n := |teams| - 1;
      if HasEmail(teams[n], e) then teams[n].leader else LastLeader(teams[..n], e)
  }

  /**
   * The users the script builds: one per distinct qualifying email, in order
   * of first occurrence, each from the last leader with that email.
   */
  function Leaders(teams: seq<TeamDoc>, now: int): (r: seq<SeedUser>)
  {
    var d := Distinct(Emails(teams));
    EmailsFound(teams);
    seq(|d|, i requires 0 <= i < |d| => UserOf(LastLeader(teams, d[i]).value, now))
  }

  /** The email list holds exactly the emails of the qualifying leaders. */
  lemma {:induction false} EmailsMembers(teams: seq<TeamDoc>, e: string)
    ensures e in Emails(teams) <==> exists k :: 0 <= k < |teams| && HasEmail(teams[k], e)
    decreases |teams|
  {
    if teams != [] {
      var n := |teams| - 1;
      EmailsMembers(teams[..n], e);
      if e in Emails(teams[..n]) {
        var k :| 0 <= k < n && HasEmail(teams[..n][k], e);
        assert HasEmail(teams[k], e);
      }
      if exists k :: 0 <= k < |teams| && HasEmail(teams[k], e) {
        var k :| 0 <= k < |teams| && HasEmail(teams[k], e);
        if k < n {
          assert HasEmail(teams[..n][k], e);
        }
      }
    }
  }

  /** A leader is found for every email of the list. */
  lemma {:induction false} EmailsFound(teams: seq<TeamDoc>)
    ensures forall e :: e in Emails(teams) ==> LastLeader(teams, e).Some?
    decreases |teams|
  {
    if teams != [] {
      EmailsFound(teams[..|teams| - 1]);
    }
  }

  /**
   * The leader found for `e` belongs to a team naming `e` that no later team
   * names again.
   */
  lemma {:induction false} LastLeaderIsLast(teams: seq<TeamDoc>, e: string) returns (k: nat)
    requires LastLeader(teams, e).Some?
    ensures k < |teams| && HasEmail(teams[k], e) && teams[k].leader == LastLeader(teams, e)
    ensures forall j :: k < j < |teams| ==> !HasEmail(teams[j], e)
    decreases |teams|
  {
    var n := |teams| - 1;
    if HasEmail(teams[n], e) {
      k := n;
    } else {
      k := LastLeaderIsLast(teams[..n], e);
      assert teams[..n][k] == teams[k];
      forall j | k < j < |teams|
        ensures !HasEmail(teams[j], e)
      {
        if j < n {
          assert teams[..n][j] == teams[j];
        }
      }
    }
  }

  /** Distinct users: no email is produced twice, so the unique index on `email` is never violated. */
  lemma LeadersOnePerEmail(teams: seq<TeamDoc>, now: int)
    ensures var r := Leaders(teams, now);
      forall i, j :: 0 <= i < j < |r| ==> r[i].email != r[j].email
  {
    var d := Distinct(Emails(teams));
    var r := Leaders(teams, now);
    EmailsFound(teams);
    forall i | 0 <= i < |r| ensures r[i].email == d[i] { }
  }

  /** A user is produced for an email exactly when some team's leader has it. */
  lemma LeadersCoverEmails(teams: seq<TeamDoc>, now: int, e: string)
    ensures var r := Leaders(teams, now);
      (exists i :: 0 <= i < |r| && r[i].email == e) <==>
      (exists k :: 0 <= k < |teams| && HasEmail(teams[k], e))
  {
    var d := Distinct(Emails(teams));
    var r := Leaders(teams, now);
    EmailsFound(teams);
    EmailsMembers(teams, e);
    DistinctSameElements(Emails(teams));
    if e in d {
      var i :| 0 <= i < |d| && d[i] == e;
      assert r[i].email == e;
    }
    if exists i :: 0 <= i < |r| && r[i].email == e {
      var i :| 0 <= i < |r| && r[i].email == e;
      assert d[i] == e;
    }
  }

  /** The users' emails, in output order. */
  function UserEmails(users: seq<SeedUser>): (r: seq<string>)
    ensures |r| == |users| && forall i :: 0 <= i < |r| ==> r[i] == users[i].email
  {
    seq(|users|, i requires 0 <= i < |users| => users[i].email)
  }

  /** Users come out in the order in which their emails were first met; an overwrite keeps its place. */
  lemma LeadersFirstSeenOrder(teams: seq<TeamDoc>, now: int)
    ensures InFirstSeenOrder(Emails(teams), UserEmails(Leaders(teams, now)))
  {
    var d := Distinct(Emails(teams));
    EmailsFound(teams);
    assert UserEmails(Leaders(teams, now)) == d;
    DistinctFirstSeenOrder(Emails(teams));
  }

  /**
   * Each user holds the data of the last team naming its email: that
   * leader's name and email, its phone or `''`, role 'user', timestamps `now`.
   */
  lemma LeadersLastWins(teams: seq<TeamDoc>, now: int, i: nat)
    requires i < |Leaders(teams, now)|
    ensures var u := Leaders(teams, now)[i];
      exists k :: 0 <= k < |teams| && HasEmail(teams[k], u.email)
        && (forall j :: k < j < |teams| ==> !HasEmail(teams[j], u.email))
        && u.name == teams[k].leader.value.name
        && u.phone == (if Truthy(teams[k].leader.value.phone) then teams[k].leader.value.phone.value else "")
        && u.role == "user" && u.createdAt == now && u.updatedAt == now
  {
    var d := Distinct(Emails(teams));
    EmailsFound(teams);
    var k := LastLeaderIsLast(teams, d[i]);
  }

  /** No user is built exactly when no team has a leader with an email. */
  lemma LeadersEmpty(teams: seq<TeamDoc>, now: int)
    ensures Leaders(teams, now) == [] <==> forall k :: 0 <= k < |teams| ==> !Qualifies(teams[k])
  {
    if exists k :: 0 <= k < |teams| && Qualifies(teams[k]) {
      var k :| 0 <= k < |teams| && Qualifies(teams[k]);
      LeadersCoverEmails(teams, now, teams[k].leader.value.email.value);
    } else if Leaders(teams, now) != [] {
      LeadersCoverEmails(teams, now, Leaders(teams, now)[0].email);
    }
  }

  /** A JavaScript `Map` from email to user: keys in insertion order. */
  class LeaderMap {
    var keys: seq<string>
    var entries: map<string, SeedUser>

    ghost predicate Valid()
      reads this
    {
      NoDuplicates(keys) && forall k :: k in keys <==> k in entries
    }

    constructor()
      ensures Valid() && keys == [] && entries == map[]
    {
      keys := [];
      entries := map[];
    }

    /** `set(key, value)`: a new key goes last; an existing key keeps its place and takes the new value. */
    method Set(key: string, value: SeedUser)
      requires Valid()
      modifies this
      ensures Valid()
      ensures keys == if key in old(keys) then old(keys) else old(keys) + [key]
      ensures entries == old(entries)[key := value]
    {
      if key !in keys {
        keys := keys + [key];
      }
      entries := entries[key := value];
    }

    /** `Array.from(values())`: the values in key order. */
    function Values(): (r: seq<SeedUser>)
      reads this
      requires Valid()
      ensures |r| == |keys| && forall i :: 0 <= i < |r| ==> r[i] == entries[keys[i]]
    {
      InOrder(keys, entries)
    }
  }

  function InOrder(keys: seq<string>, entries: map<string, SeedUser>): seq<SeedUser>
    requires forall k :: k in keys ==> k in entries
  {
    seq(|keys|, i requires 0 <= i < |keys| => entries[keys[i]])
  }

  /** The map holds, for the teams seen so far, the emails in first-seen order and each one's last leader. */
  ghost predicate Mirrors(keys: seq<string>, entries: map<string, SeedUser>, seen: seq<TeamDoc>, now: int) {
    && keys == Distinct(Emails(seen))
    && forall k :: k in entries ==>
      LastLeader(seen, k).Some? && entries[k] == UserOf(LastLeader(seen, k).value, now)
  }

  /** Appending a team appends its email, if it qualifies, to the email list. */
  lemma EmailsSnoc(seen: seq<TeamDoc>, t: TeamDoc)
    ensures Emails(seen + [t]) == Emails(seen) + (if Qualifies(t) then [t.leader.value.email.value] else [])
  {
    assert (seen + [t])[..|seen|] == seen;
  }

  /** Appending a team makes it the last leader of its email and changes no other. */
  lemma LastLeaderSnoc(seen: seq<TeamDoc>, t: TeamDoc, e: string)
    ensures LastLeader(seen + [t], e) == if HasEmail(t, e) then t.leader else LastLeader(seen, e)
  {
    assert (seen + [t])[..|seen|] == seen;
  }

  /** One more team keeps the map in step: a qualifying team overwrites its email's entry. */
  lemma MirrorsStep(keys: seq<string>, entries: map<string, SeedUser>, seen: seq<TeamDoc>, t: TeamDoc, now: int)
    requires Mirrors(keys, entries, seen, now) && Qualifies(t)
    ensures var e := t.leader.value.email.value;
      Mirrors(if e in keys then keys else keys + [e], entries[e := UserOf(t.leader.value, now)], seen + [t], now)
  {
    var e := t.leader.value.email.value;
    var entries' := entries[e := UserOf(t.leader.value, now)];
    EmailsSnoc(seen, t);
    DistinctSnoc(Emails(seen), e);
    forall k | k in entries'
      ensures LastLeader(seen + [t], k).Some? && entries'[k] == UserOf(LastLeader(seen + [t], k).value, now)
    {
      LastLeaderSnoc(seen, t, k);
    }
  }

  /** A team without a qualifying leader leaves the map in step unchanged. */
  lemma MirrorsSkip(keys: seq<string>, entries: map<string, SeedUser>, seen: seq<TeamDoc>, t: TeamDoc, now: int)
    requires Mirrors(keys, entries, seen, now) && !Qualifies(t)
    ensures Mirrors(keys, entries, seen + [t], now)
  {
    EmailsSnoc(seen, t);
    assert Emails(seen) + [] == Emails(seen);
    forall k | k in entries
      ensures LastLeader(seen + [t], k) == LastLeader(seen, k)
    {
      LastLeaderSnoc(seen, t, k);
    }
  }

  /** Once every team is seen, the map's values in key order are the specified users. */
  lemma MirrorsDone(keys: seq<string>, entries: map<string, SeedUser>, teams: seq<TeamDoc>, now: int)
    requires Mirrors(keys, entries, teams, now) && forall k :: k in keys ==> k in entries
    ensures InOrder(keys, entries) == Leaders(teams, now)
  {
    EmailsFound(teams);
  }

  /** The extraction loop: every qualifying team overwrites the entry under its leader's email. */
  method ExtractLeaders(teams: seq<TeamDoc>, now: int) returns (users: seq<SeedUser>)
    ensures users == Leaders(teams, now)
  {
    var leaderMap := new LeaderMap();
    var i := 0;
    while i < |teams|
      invariant 0 <= i <= |teams|
      invariant leaderMap.Valid()
      invariant Mirrors(leaderMap.keys, leaderMap.entries, teams[..i], now)
    {
      var team := teams[i];
      assert teams[..i + 1] == teams[..i] + [team];
      if team.leader.Some? && Truthy(team.leader.value.email) {
        MirrorsStep(leaderMap.keys, leaderMap.entries, teams[..i], team, now);
        leaderMap.Set(team.leader.value.email.value, UserOf(team.leader.value, now));
      } else {
        MirrorsSkip(leaderMap.keys, leaderMap.entries, teams[..i], team, now);
      }
      i := i + 1;
    }
    assert teams[..i] == teams;
    MirrorsDone(leaderMap.keys, leaderMap.entries, teams, now);
    users := leaderMap.Values();
  }

  /**
   * `seedUsers` after the users collection has been emptied: the users it
   * inserts, or `None` when no leader qualifies and nothing is inserted.
   */
  method SeedUsers(teams: seq<TeamDoc>, now: int) returns (inserted: Option<seq<SeedUser>>)
    ensures inserted.None? <==> forall k :: 0 <= k < |teams| ==> !Qualifies(teams[k])
    ensures inserted.Some? ==> inserted.value == Leaders(teams, now) && inserted.value != []
  {
    var users := ExtractLeaders(teams, now);
    LeadersEmpty(teams, now);
    if |users| == 0 {
      return None;
    }
    inserted := Some(users);
  }
}
