/**
 * The festival's event fixture (`data/eventData.js`): the events the seeding
 * script stores, and the lookup `getEventById`.
 */
module EventData {
  import opened Base
  import opened Seqs

  /**
   * A fixture event, with the fields the lookup and the seeding decide on.
   * `groupSize` is `"n"` or `"a-b"`; the two dates are day-month-year text.
   */
  datatype RawEvent = RawEvent(
    id: string, title: string, location: string, eventType: Option<string>,
    groupSize: Option<string>, price: Option<int>, image: Option<string>,
    prelimsDate: Option<string>, finalsDate: Option<string>)

  const Venue := "Mechanical Dept, Jadavpur University"

  /** The ten events, in the order the file lists them. */
  const Fixture: seq<RawEvent> := [
    RawEvent("67b7102b9a01ff3f0a3c85e1", "HydroBlasters", Venue, Some("Hardware Challenge"),
      Some("2-3"), Some(2000), Some("/images/events/hydro.png"), None, Some("19-03-2025")),
    RawEvent("67b7148d9a01ff3f0a3c85ec", "Data Mine", Venue, Some("Simulation Challenge"),
      Some("2-4"), None, Some("/images/events/datamine.png"), Some("17-03-2025 (online mode)"), Some("18-03-2025")),
    RawEvent("67b714449a01ff3f0a3c85e6", "Model Matrix", Venue, Some("Simulation Challenge"),
      Some("1"), Some(5000), Some("/images/events/model.png"), Some("17-03-2025 (online mode)"), Some("18-03-2025")),
    RawEvent("67b714799a01ff3f0a3c85ea", "Clash of Cases", Venue, Some("General"),
      Some("1"), None, Some("/images/events/clash.png"), Some("17-03-2025(online)"), Some("18-03-2025")),
    RawEvent("67b7145e9a01ff3f0a3c85e8", "Torko Bitorko", Venue, Some("General"),
      Some("1"), None, Some("/images/events/debate.png"), None, Some("19-03-2025")),
    RawEvent("67b7141b9a01ff3f0a3c85e4", "Prot-Egg-t", Venue, Some("Hardware Challenge"),
      Some("2-4"), Some(2000), Some("/images/events/egg.png"), Some("17-03-2025"), Some("17-03-2025")),
    RawEvent("67b7146e9a01ff3f0a3c85e9", "Beyond The Frame", Venue, Some("Fun Activities"),
      Some("1"), Some(2000), Some("/images/events/frame.png"), Some("17-03-2025 & 18-03-2025"), Some("19-03-2025")),
    RawEvent("67b710919a01ff3f0a3c85e2", "Robo League", Venue, Some("Hardware Challenge"),
      Some("2-5"), Some(6000), Some("/images/events/robo.png"), Some("18-03-2025"), Some("18-03-2025")),
    RawEvent("67b714529a01ff3f0a3c85e7", "Gyan Yudh", "Lecture Hall, Jadavpur University", Some("General"),
      Some("1-3"), Some(1000), Some("/images/events/qui.png"), Some("18-03-2025"), Some("19-03-2025")),
    RawEvent("67b710b69a01ff3f0a3c85e3", "Mazecraft", Venue, Some("Hardware Challenge"),
      Some("3-6"), Some(6000), Some("/images/events/maze.png"), Some("18-03-2025"), Some("18-03-2025"))
  ]

  function HasId(id: string): RawEvent -> bool {
    (e: RawEvent) => e.id == id
  }

  /**
   * `getEventById`: the first fixture event with that id, or `null`
   * (`None`) when no event has it.
   */
  function GetEventById(id: string): (r: Option<RawEvent>)
    ensures r.Some? ==> r.value.id == id && r.value in Fixture
    ensures r.None? <==> forall k :: 0 <= k < |Fixture| ==> Fixture[k].id != id
  {
    Find(Fixture, HasId(id))
  }

  /** No two fixture events share an id. */
  lemma FixtureIdsDistinct()
    ensures forall i, j :: 0 <= i < j < |Fixture| ==> Fixture[i].id != Fixture[j].id
  {
  }

  /** Looking up the id of a fixture event gives that event: the lookup is unambiguous. */
  lemma LookupFindsEach(k: nat)
    requires k < |Fixture|
    ensures GetEventById(Fixture[k].id) == Some(Fixture[k])
  {
    FixtureIdsDistinct();
    FindDistinct(Fixture, k);
  }

  /** In a list with distinct ids, looking up the id of an entry finds that entry. */
  lemma FindDistinct(s: seq<RawEvent>, k: nat)
    requires k < |s|
    requires forall i, j :: 0 <= i < j < |s| ==> s[i].id != s[j].id
    ensures Find(s, HasId(s[k].id)) == Some(s[k])
  {
    var r := Find(s, HasId(s[k].id));
    assert HasId(s[k].id)(s[k]);
    var i :| 0 <= i < |s| && s[i] == r.value && HasId(s[k].id)(s[i])
      && forall j :: 0 <= j < i ==> !HasId(s[k].id)(s[j]);
    assert i == k;
  }
}
