/**
 * The formatting step of the event seeding script (`scripts/seedEvents.js`):
 * each fixture event becomes a stored event, its day-month-year dates
 * rearranged for the date parser and its group size read as a minimum and
 * maximum team size.
 */
module SeedEvents {
  import opened Base
  import opened Text
  import JsNumber
  import ObjectId
  import opened EventData
  import EventsPage

  /** The document the script inserts for one fixture event. */
  datatype SeededEvent = SeededEvent(
    id: string, title: string, date: int, venue: string,
    maxTeamSize: int, minTeamSize: int, registrationDeadline: int,
    eventType: Option<string>, price: int, image: Option<string>,
    createdAt: int, updatedAt: int)

  // ----------------------------------------------------------------- dates

  /** Part `k` of a split, or the text a missing part prints as in a template literal. */
  function Part(parts: seq<string>, k: nat): string {
    if k < |parts| then parts[k] else "undefined"
  }

  /** `[day, month, year] = s.split('-')` put back together as `year-month-day`. */
  function YearFirst(s: string): string {
    var p := Split(s, '-');
    Part(p, 2) + "-" + Part(p, 1) + "-" + Part(p, 0)
  }

  /** Date text the script tries to read: present, not empty, holding a '-'. */
  predicate Dashed(s: Option<string>) {
    Truthy(s) && '-' in s.value
  }

  /**
   * The event date: the parsed, rearranged `finalsDate`, or `now` when it is
   * missing, has no '-' or does not parse.
   */
  function EventDate(finalsDate: Option<string>, parseDate: string -> Option<int>, now: int): int {
    if Dashed(finalsDate) then parseDate(YearFirst(finalsDate.value)).GetOr(now) else now
  }

  /** `s.split(' ')[0]`. */
  function FirstToken(s: string): string {
    Split(s, ' ')[0]
  }

  /**
   * The registration deadline: the parsed, rearranged first token of
   * `prelimsDate`, or the event date when it is missing, has no '-' or does
   * not parse.
   */
  function Deadline(prelimsDate: Option<string>, parseDate: string -> Option<int>, eventDate: int): int {
    if Dashed(prelimsDate) then parseDate(YearFirst(FirstToken(prelimsDate.value))).GetOr(eventDate)
    else eventDate
  }

  /** `x || d` for a parsed number: NaN (`None`) and 0 give `d`. */
  function OrNumber(x: Option<int>, d: int): int {
    if x.Some? && x.value != 0 then x.value else d
  }

  // ------------------------------------------------------------ team sizes

  /**
   * `minTeamSize` and `maxTeamSize` from `groupSize`: 1 and 1 when it is
   * absent; for `a-b` the numbers before and after the first '-' (NaN or 0
   * before gives 1, NaN or 0 after gives the minimum); otherwise the number
   * it starts with for both, when it starts with one.
   */
  function TeamSizes(groupSize: Option<string>): (int, int) {
    if !Truthy(groupSize) then (1, 1)
    else
      var g := groupSize.value;
      if '-' in g then
        SplitAtSep(g, '-');
        var parts := Split(g, '-');
        var lo := OrNumber(JsNumber.ParseInt(Trim(parts[0])), 1);
        (lo, OrNumber(JsNumber.ParseInt(Trim(parts[1])), lo))
      else
        match JsNumber.ParseInt(g)
        case Some(n) => (n, n)
        case None => (1, 1)
  }

  // ------------------------------------------------------------ formatting

  /**
   * One fixture event as a document, or `None` when its id is not an
   * ObjectId (the constructor throws and nothing is seeded).
   */
  function Formatted(e: RawEvent, parseDate: string -> Option<int>, now: int): Option<SeededEvent> {
    var date := EventDate(e.finalsDate, parseDate, now);
    var (lo, hi) := TeamSizes(e.groupSize);
    match ObjectId.Cast(e.id)
    case None => None
    case Some(id) =>
      Some(SeededEvent(id, e.title, date, e.location, hi, lo,
        Deadline(e.prelimsDate, parseDate, date), e.eventType, e.price.GetOr(0),
        if Truthy(e.image) then e.image else None, now, now))
  }

  /**
   * The body of the `events.map` callback: the dates and the team sizes are
   * worked out step by step, as the script assigns them.
   */
  method FormatEvent(e: RawEvent, parseDate: string -> Option<int>, now: int) returns (r: Option<SeededEvent>)
    ensures r == Formatted(e, parseDate, now)
  {
    var eventDate: int;
    if e.finalsDate.Some? && e.finalsDate.value != "" && '-' in e.finalsDate.value {
      var parts := Split(e.finalsDate.value, '-');
      var parsed := parseDate(Part(parts, 2) + "-" + Part(parts, 1) + "-" + Part(parts, 0));
      if parsed.Some? {
        eventDate := parsed.value;
      } else {
        eventDate := now;
      }
    } else {
      eventDate := now;
    }
    assert eventDate == EventDate(e.finalsDate, parseDate, now);

    var registrationDeadline: int;
    if e.prelimsDate.Some? && e.prelimsDate.value != "" && '-' in e.prelimsDate.value {
      var datePart := Split(e.prelimsDate.value, ' ')[0];
      var parts := Split(datePart, '-');
      var parsed := parseDate(Part(parts, 2) + "-" + Part(parts, 1) + "-" + Part(parts, 0));
      if parsed.Some? {
        registrationDeadline := parsed.value;
      } else {
        registrationDeadline := eventDate;
      }
    } else {
      registrationDeadline := eventDate;
    }
    assert registrationDeadline == Deadline(e.prelimsDate, parseDate, eventDate);

    var minTeamSize := 1;
    var maxTeamSize := 1;
    if e.groupSize.Some? && e.groupSize.value != "" {
      var g := e.groupSize.value;
      if '-' in g {
        SplitAtSep(g, '-');
        var parts := Split(g, '-');
        var min := JsNumber.ParseInt(Trim(parts[0]));
        var max := JsNumber.ParseInt(Trim(parts[1]));
        minTeamSize := if min.Some? && min.value != 0 then min.value else 1;
        maxTeamSize := if max.Some? && max.value != 0 then max.value else minTeamSize;
      } else {
        var size := JsNumber.ParseInt(g);
        if size.Some? {
          minTeamSize := size.value;
          maxTeamSize := size.value;
        }
      }
    }
    assert (minTeamSize, maxTeamSize) == TeamSizes(e.groupSize);

    var id := ObjectId.Cast(e.id);
    if id.None? {
      return None;
    }
    r := Some(SeededEvent(id.value, e.title, eventDate, e.location, maxTeamSize, minTeamSize,
      registrationDeadline, e.eventType, if e.price.Some? then e.price.value else 0,
      if e.image.Some? && e.image.value != "" then e.image else None, now, now));
  }

  /**
   * `events.map(...)`: one document per event, in order, when every id is
   * an ObjectId; a single bad id leaves nothing to insert.
   */
  function FormatEvents(events: seq<RawEvent>, parseDate: string -> Option<int>, now: int): (r: Option<seq<SeededEvent>>)
    ensures r.Some? <==> forall k :: 0 <= k < |events| ==> ObjectId.IsHexId(events[k].id)
    ensures r.Some? ==> (|r.value| == |events|
      && forall k :: 0 <= k < |events| ==> Formatted(events[k], parseDate, now) == Some(r.value[k]))
  {
    if events == [] then Some([])
    else
      match Formatted(events[0], parseDate, now)
      case None => None
      case Some(d) =>
        match FormatEvents(events[1..], parseDate, now)
        case None =>
          assert forall k :: 1 <= k < |events| ==> events[k] == events[1..][k - 1];
          None
        case Some(ds) =>
          assert forall k :: 1 <= k < |events| ==> events[k] == events[1..][k - 1];
          Some([d] + ds)
  }

  // ---------------------------------------------------------------- lemmas

  /** The digits of a natural number have no white space to trim. */
  lemma TrimDigits(n: nat)
    ensures Trim(JsNumber.IntToString(n)) == JsNumber.IntToString(n)
    ensures '-' !in JsNumber.IntToString(n)
  {
    var s := JsNumber.IntToString(n);
    assert JsNumber.IsDigit(s[0]) && JsNumber.IsDigit(s[|s| - 1]);
    JsNumber.TrimStartNoSpace(s);
  }

  /** `a-b` with no '-' in either part reads each part as a number, with the `||` fallbacks. */
  lemma {:induction false} DashedSizes(a: string, b: string)
    requires '-' !in a && '-' !in b
    ensures var lo := OrNumber(JsNumber.ParseInt(Trim(a)), 1);
      TeamSizes(Some(a + "-" + b)) == (lo, OrNumber(JsNumber.ParseInt(Trim(b)), lo))
  {
    var g := a + "-" + b;
    assert g == a + ['-'] + b;
    SplitPrefix(a, b, '-');
    SplitNoSep(b, '-');
    assert g[|a|] == '-';
  }

  /** In `a-b` neither bound can be below 1: a part holds no '-' so it never reads as negative. */
  lemma {:induction false} DashedSizesPositive(g: string)
    requires '-' in g
    ensures TeamSizes(Some(g)).0 >= 1 && TeamSizes(Some(g)).1 >= 1
  {
    SplitAtSep(g, '-');
    var parts := Split(g, '-');
    NonNegativeWithoutMinus(parts[0]);
    NonNegativeWithoutMinus(parts[1]);
  }

  /** Text without '-' never reads as a negative number, even once trimmed. */
  lemma NonNegativeWithoutMinus(p: string)
    requires '-' !in p
    ensures var n := JsNumber.ParseInt(Trim(p)); n.Some? ==> n.value >= 0
  {
    var s := TrimStart(p);
    TrimStartRemovesSpace(p);
    TrimEndRemovesSpace(s);
    var t := Trim(p);
    assert t == s[..|t|];
    assert t == p[|p| - |s|..][..|t|];
    TrimStartRemovesSpace(t);
    var u := TrimStart(t);
    if u != [] {
      assert u[0] == t[|t| - |u|];
      assert u[0] in p;
    }
  }

  /**
   * The events page's team-size label reads back as the sizes it shows:
   * seeding a group size written as the label of `min` and `max` gives
   * exactly `min` and `max`.
   */
  lemma {:induction false} LabelRoundTrip(min: int, max: int)
    requires min >= 1 && max >= 1
    ensures TeamSizes(Some(EventsPage.SizeLabel(min, max))) == (min, max)
  {
    var a := JsNumber.IntToString(min);
    var b := JsNumber.IntToString(max);
    TrimDigits(min);
    TrimDigits(max);
    JsNumber.ParseIntOfIntToString(min);
    JsNumber.ParseIntOfIntToString(max);
    if min == max {
      assert EventsPage.SizeLabel(min, max) == a;
    } else {
      DashedSizes(a, b);
    }
  }

  /** The script does not order the bounds: `5-2` gives a minimum above the maximum. */
  lemma SizesUnordered()
    ensures TeamSizes(Some("5-2")) == (5, 2)
  {
    assert EventsPage.SizeLabel(5, 2) == "5-2" by {
      assert JsNumber.IntToString(5) == "5" && JsNumber.IntToString(2) == "2";
    }
    LabelRoundTrip(5, 2);
  }

  /** Without a '-', a parsed 0 is kept for both bounds. */
  lemma SizesZero()
    ensures TeamSizes(Some("0")) == (0, 0)
  {
    assert JsNumber.IntToString(0) == "0";
    JsNumber.ParseIntOfIntToString(0);
  }

  /** With a '-', a 0 before it falls back to 1. */
  lemma SizesLeadingZero()
    ensures TeamSizes(Some("0-3")) == (1, 3)
  {
    assert JsNumber.IntToString(0) == "0" && JsNumber.IntToString(3) == "3";
    assert "0" + "-" + "3" == "0-3";
    DigitSizes(0, 3);
  }

  /** `a-b` written with two numbers reads back both numbers, a 0 replaced by the fallback. */
  lemma DigitSizes(a: nat, b: nat)
    ensures var lo := if a != 0 then a else 1;
      TeamSizes(Some(JsNumber.IntToString(a) + "-" + JsNumber.IntToString(b))) == (lo, if b != 0 then b else lo)
  {
    TrimDigits(a);
    TrimDigits(b);
    JsNumber.ParseIntOfIntToString(a);
    JsNumber.ParseIntOfIntToString(b);
    DashedSizes(JsNumber.IntToString(a), JsNumber.IntToString(b));
  }

  /** An absent or empty group size gives one member at least and at most. */
  lemma SizesAbsent()
    ensures TeamSizes(None) == (1, 1) && TeamSizes(Some("")) == (1, 1)
  {
  }

  /** `D-M-Y` with no '-' inside a part is handed to the date parser as `Y-M-D`. */
  lemma {:induction false} YearFirstOf(d: string, m: string, y: string)
    requires '-' !in d && '-' !in m && '-' !in y
    ensures YearFirst(d + "-" + m + "-" + y) == y + "-" + m + "-" + d
  {
    assert d + "-" + m + "-" + y == d + ['-'] + (m + ['-'] + y);
    SplitPrefix(d, m + ['-'] + y, '-');
    SplitPrefix(m, y, '-');
    SplitNoSep(y, '-');
  }

  /** A finals date `D-M-Y` gives the parsed `Y-M-D`, or `now` when that does not parse. */
  lemma EventDateOf(d: string, m: string, y: string, parseDate: string -> Option<int>, now: int)
    requires '-' !in d && '-' !in m && '-' !in y
    ensures EventDate(Some(d + "-" + m + "-" + y), parseDate, now) == parseDate(y + "-" + m + "-" + d).GetOr(now)
  {
    YearFirstOf(d, m, y);
  }

  /**
   * A preliminaries date `D-M-Y` followed by a space and anything else gives
   * the parsed `Y-M-D`, or the event date when that does not parse.
   */
  lemma {:induction false} DeadlineOf(d: string, m: string, y: string, rest: string, parseDate: string -> Option<int>, eventDate: int)
    requires '-' !in d && '-' !in m && '-' !in y
    requires ' ' !in d && ' ' !in m && ' ' !in y
    ensures Deadline(Some(d + "-" + m + "-" + y + " " + rest), parseDate, eventDate)
      == parseDate(y + "-" + m + "-" + d).GetOr(eventDate)
  {
    var dmy := d + "-" + m + "-" + y;
    assert ' ' !in dmy;
    assert dmy + " " + rest == dmy + [' '] + rest;
    SplitPrefix(dmy, rest, ' ');
    assert dmy[|d|] == '-';
    YearFirstOf(d, m, y);
  }

  /**
   * A preliminaries date `D-M-Y` with no space at all is rearranged whole,
   * so text glued to the year (the fixture's "17-03-2025(online)") stays in
   * what the parser is handed; the deadline is the event date unless the
   * parser accepts that.
   */
  lemma {:induction false} UnspacedDeadlineOf(d: string, m: string, y: string, parseDate: string -> Option<int>, eventDate: int)
    requires '-' !in d && '-' !in m && '-' !in y
    requires ' ' !in d && ' ' !in m && ' ' !in y
    ensures Deadline(Some(d + "-" + m + "-" + y), parseDate, eventDate)
      == parseDate(y + "-" + m + "-" + d).GetOr(eventDate)
  {
    var dmy := d + "-" + m + "-" + y;
    assert ' ' !in dmy;
    SplitNoSep(dmy, ' ');
    assert dmy[|d|] == '-';
    YearFirstOf(d, m, y);
  }

  /** The label of two one-digit sizes is written with their digits. */
  lemma DigitLabel(a: nat, b: nat)
    requires a < 10 && b < 10
    ensures EventsPage.SizeLabel(a, b)
      == if a == b then [JsNumber.DigitChar(a)] else [JsNumber.DigitChar(a), '-', JsNumber.DigitChar(b)]
  {
  }

  /** A label of sizes `1 <= min <= max` seeds sizes in that order. */
  lemma LabelOrdered(min: nat, max: nat)
    requires 1 <= min <= max
    ensures var (lo, hi) := TeamSizes(Some(EventsPage.SizeLabel(min, max)));
      1 <= lo <= hi
  {
    LabelRoundTrip(min, max);
  }

  /** The group sizes the fixture writes. */
  const FixtureGroupSizes: seq<string> := ["2-3", "2-4", "1", "2-5", "1-3", "3-6"]

  /** Every fixture event has one of the listed group sizes. */
  lemma FixtureGroupSizesListed()
    ensures forall k :: 0 <= k < |Fixture| ==>
      Fixture[k].groupSize.Some? && Fixture[k].groupSize.value in FixtureGroupSizes
  {
  }

  /** Each listed group size is the label of sizes `1 <= min <= max`. */
  lemma GroupSizesAreLabels()
    ensures forall g :: g in FixtureGroupSizes ==>
      exists min: nat, max: nat :: 1 <= min <= max < 10 && g == EventsPage.SizeLabel(min, max)
  {
    DigitLabel(2, 3);
    DigitLabel(2, 4);
    DigitLabel(1, 1);
    DigitLabel(2, 5);
    DigitLabel(1, 3);
    DigitLabel(3, 6);
  }

  /** Every fixture group size seeds a minimum of at least 1 and no more than the maximum. */
  lemma FixtureSizesOrdered()
    ensures forall k :: 0 <= k < |Fixture| ==>
      var (lo, hi) := TeamSizes(Fixture[k].groupSize);
      1 <= lo <= hi
  {
    FixtureGroupSizesListed();
    GroupSizesAreLabels();
    forall k | 0 <= k < |Fixture|
      ensures var (lo, hi) := TeamSizes(Fixture[k].groupSize); 1 <= lo <= hi
    {
      var g := Fixture[k].groupSize.value;
      var min: nat, max: nat :| 1 <= min <= max < 10 && g == EventsPage.SizeLabel(min, max);
      LabelOrdered(min, max);
    }
  }
}
