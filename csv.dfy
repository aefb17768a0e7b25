/**
 * Comma-separated text: lines written by joining cells with ',' as they
 * stand, and lines written with every cell quoted as RFC 4180 (section 2)
 * describes, together with a reader for the quoted form.
 */
module Csv {
  import opened Base
  import opened Text

  // ------------------------------------------------------------ unquoted

  /** `cells.join(',')`: a line with no quoting. */
  function PlainLine(cells: seq<string>): string {
    Join(cells, ",")
  }

  /** Splitting at a separator distributes over a join at that separator. */
  lemma {:induction false} SplitConcat(a: string, b: string, sep: char)
    ensures Split(a + [sep] + b, sep) == Split(a, sep) + Split(b, sep)
    decreases |a|
  {
    if a == [] {
      assert a + [sep] + b == [sep] + b;
      assert ([sep] + b)[1..] == b;
    } else {
      var s := a + [sep] + b;
      assert s[0] == a[0] && s[1..] == a[1..] + [sep] + b;
      SplitConcat(a[1..], b, sep);
      var u := Split(a[1..], sep);
      var t := Split(s[1..], sep);
      assert t == u + Split(b, sep);
      if a[0] == sep {
        assert Split(a, sep) == [""] + u;
      } else {
        assert t[0] == u[0] && t[1..] == u[1..] + Split(b, sep);
        assert Split(a, sep) == [[a[0]] + u[0]] + u[1..];
      }
    }
  }

  /**
   * A reader that splits an unquoted line at ',' finds at least one field
   * per cell, and more fields than cells as soon as one cell holds a ','.
   */
  lemma {:induction false} PlainLineFields(cells: seq<string>)
    requires |cells| >= 1
    ensures |Split(PlainLine(cells), ',')| >= |cells|
    ensures (exists k :: 0 <= k < |cells| && ',' in cells[k]) ==> |Split(PlainLine(cells), ',')| > |cells|
    decreases |cells|
  {
    if ',' in cells[0] {
      SplitAtSep(cells[0], ',');
    }
    if |cells| > 1 {
      PlainLineFields(cells[1..]);
      SplitConcat(cells[0], PlainLine(cells[1..]), ',');
      if exists k :: 0 <= k < |cells| && ',' in cells[k] {
        var k :| 0 <= k < |cells| && ',' in cells[k];
        if k > 0 {
          assert ',' in cells[1..][k - 1];
        }
      }
    }
  }

  // -------------------------------------------------------------- quoted

  /** The cell text with every '"' doubled. */
  function Escape(c: string): string {
    if c == [] then []
    else (if c[0] == '"' then "\"\"" else [c[0]]) + Escape(c[1..])
  }

  /** A quoted cell: '"', the escaped text, '"'. */
  function Quote(c: string): string {
    "\"" + Escape(c) + "\""
  }

  function Quotes(cells: seq<string>): (r: seq<string>)
    ensures |r| == |cells|
    ensures forall k :: 0 <= k < |r| ==> r[k] == Quote(cells[k])
  {
    seq(|cells|, k requires 0 <= k < |cells| => Quote(cells[k]))
  }

  /** A line whose cells are all quoted. */
  function QuotedLine(cells: seq<string>): string {
    Join(Quotes(cells), ",")
  }

  function QuotedLines(rows: seq<seq<string>>): (r: seq<string>)
    ensures |r| == |rows|
    ensures forall k :: 0 <= k < |r| ==> r[k] == QuotedLine(rows[k])
  {
    seq(|rows|, k requires 0 <= k < |rows| => QuotedLine(rows[k]))
  }

  /** A document of quoted lines separated by '\n'. */
  function QuotedDocument(rows: seq<seq<string>>): string {
    Join(QuotedLines(rows), "\n")
  }

  /**
   * Reads the rest of a quoted cell (after its opening '"'): a doubled '"'
   * stands for one '"', a single '"' closes the cell. Gives the cell text and
   * what follows the closing quote.
   */
  function ReadQuoted(s: string): (r: Option<(string, string)>)
    ensures r.Some? ==> |r.value.1| < |s|
    decreases |s|
  {
    if s == [] then None
    else if s[0] == '"' then
      if |s| >= 2 && s[1] == '"' then
        match ReadQuoted(s[2..])
        case None => None
        case Some((c, rest)) => Some(("\"" + c, rest))
      else Some(("", s[1..]))
    else
      match ReadQuoted(s[1..])
      case None => None
      case Some((c, rest)) => Some(([s[0]] + c, rest))
  }

  /** Reads quoted cells separated by ',' up to the end of a line. */
  function ReadLine(s: string): (r: Option<(seq<string>, string)>)
    ensures r.Some? ==> |r.value.1| < |s|
    decreases |s|
  {
    if s == [] || s[0] != '"' then None
    else
      match ReadQuoted(s[1..])
      case None => None
      case Some((c, rest)) =>
        if rest != [] && rest[0] == ',' then
          match ReadLine(rest[1..])
          case None => None
          case Some((cs, r)) => Some(([c] + cs, r))
        else Some(([c], rest))
  }

  /** Reads a whole document of quoted lines separated by '\n'. */
  function ReadDocument(s: string): Option<seq<seq<string>>>
    decreases |s|
  {
    match ReadLine(s)
    case None => None
    case Some((cells, rest)) =>
      if rest == [] then Some([cells])
      else if rest[0] == '\n' then
        match ReadDocument(rest[1..])
        case None => None
        case Some(rows) => Some([cells] + rows)
      else None
  }

  lemma {:induction false} ReadQuotedEscape(c: string, rest: string)
    requires rest == [] || rest[0] != '"'
    ensures ReadQuoted(Escape(c) + "\"" + rest) == Some((c, rest))
    decreases |c|
  {
    var s := Escape(c) + "\"" + rest;
    if c == [] {
      assert s == "\"" + rest;
      assert s[1..] == rest;
    } else if c[0] == '"' {
      ReadQuotedEscape(c[1..], rest);
      assert s == "\"\"" + (Escape(c[1..]) + "\"" + rest);
      assert s[2..] == Escape(c[1..]) + "\"" + rest;
      assert c == "\"" + c[1..];
    } else {
      ReadQuotedEscape(c[1..], rest);
      assert s == [c[0]] + (Escape(c[1..]) + "\"" + rest);
      assert s[1..] == Escape(c[1..]) + "\"" + rest;
      assert c == [c[0]] + c[1..];
    }
  }

  /** A quoted cell reads back as its text, followed by whatever came after it. */
  lemma ReadQuote(c: string, rest: string)
    requires rest == [] || rest[0] != '"'
    ensures var s := Quote(c) + rest;
      s != [] && s[0] == '"' && ReadQuoted(s[1..]) == Some((c, rest))
  {
    var s := Quote(c) + rest;
    assert s[1..] == Escape(c) + "\"" + rest;
    ReadQuotedEscape(c, rest);
  }

  /** A quoted line of two or more cells is the first quoted cell, ',' and the quoted rest. */
  lemma QuotedLineCons(cells: seq<string>)
    requires |cells| >= 2
    ensures QuotedLine(cells) == Quote(cells[0]) + "," + QuotedLine(cells[1..])
  {
    assert Quotes(cells)[1..] == Quotes(cells[1..]);
  }

  /** A quoted cell followed by ',' reads as that cell, then the cells read from what follows. */
  lemma ReadNextCell(c: string, tail: string)
    ensures ReadLine(Quote(c) + "," + tail)
      == match ReadLine(tail) case None => None case Some((cs, r)) => Some(([c] + cs, r))
  {
    assert Quote(c) + "," + tail == Quote(c) + ("," + tail);
    ReadQuote(c, "," + tail);
    assert ("," + tail)[1..] == tail;
  }

  lemma {:induction false} ReadQuotedLine(cells: seq<string>, rest: string)
    requires |cells| >= 1
    requires rest == [] || (rest[0] != ',' && rest[0] != '"')
    ensures ReadLine(QuotedLine(cells) + rest) == Some((cells, rest))
    decreases |cells|
  {
    if |cells| == 1 {
      assert QuotedLine(cells) == Quote(cells[0]);
      ReadQuote(cells[0], rest);
      assert [cells[0]] == cells;
    } else {
      ReadQuotedLine(cells[1..], rest);
      ReadNextCell(cells[0], QuotedLine(cells[1..]) + rest);
      QuotedLineCons(cells);
      assert QuotedLine(cells) + rest == Quote(cells[0]) + "," + (QuotedLine(cells[1..]) + rest);
      assert cells == [cells[0]] + cells[1..];
    }
  }

  /** Reading a quoted document gives back the rows that were written, whatever their text. */
  lemma {:induction false} QuotedRoundTrip(rows: seq<seq<string>>)
    requires |rows| >= 1
    requires forall k :: 0 <= k < |rows| ==> |rows[k]| >= 1
    ensures ReadDocument(QuotedDocument(rows)) == Some(rows)
    decreases |rows|
  {
    var ls := QuotedLines(rows);
    if |rows| == 1 {
      assert QuotedDocument(rows) == QuotedLine(rows[0]) + "";
      ReadQuotedLine(rows[0], "");
      assert [rows[0]] == rows;
    } else {
      assert ls[1..] == QuotedLines(rows[1..]);
      var tail := QuotedDocument(rows[1..]);
      assert QuotedDocument(rows) == QuotedLine(rows[0]) + ("\n" + tail);
      ReadQuotedLine(rows[0], "\n" + tail);
      assert ("\n" + tail)[1..] == tail;
      QuotedRoundTrip(rows[1..]);
      assert rows == [rows[0]] + rows[1..];
    }
  }
}
