/**
 * String operations of JavaScript that the panel relies on: `trim`,
 * ASCII case folding, substring search, `split` on one character and `join`.
 */
module Text {

  /** ECMAScript WhiteSpace and LineTerminator code points: what `trim` removes. */
  predicate IsSpace(c: char) {
    c == '\t' || c == '\n' || c == '\U{000B}' || c == '\U{000C}' || c == '\r' || c == ' '
    || c == '\U{00A0}' || c == '\U{1680}' || ('\U{2000}' <= c <= '\U{200A}')
    || c == '\U{2028}' || c == '\U{2029}' || c == '\U{202F}' || c == '\U{205F}'
    || c == '\U{3000}' || c == '\U{FEFF}'
  }

  predicate AllSpace(s: string) {
    forall i :: 0 <= i < |s| ==> IsSpace(s[i])
  }

  /** `trimStart`: `s` without its leading white space. */
  function TrimStart(s: string): string {
    if s != [] && IsSpace(s[0]) then TrimStart(s[1..]) else s
  }

  /** `trimEnd`: `s` without its trailing white space. */
  function TrimEnd(s: string): string {
    if s != [] && IsSpace(s[|s| - 1]) then TrimEnd(s[..|s| - 1]) else s
  }

  /** `trim`. */
  function Trim(s: string): string {
    TrimEnd(TrimStart(s))
  }

  /** `trimStart` removes a prefix of white space and stops at the first other character. */
  lemma {:induction false} TrimStartRemovesSpace(s: string)
    ensures var r := TrimStart(s);
      && |r| <= |s| && r == s[|s| - |r|..]
      && AllSpace(s[..|s| - |r|])
      && (r != [] ==> !IsSpace(r[0]))
  {
    if s != [] && IsSpace(s[0]) {
      TrimStartRemovesSpace(s[1..]);
    }
  }

  /** `trimEnd` removes a suffix of white space and stops at the last other character. */
  lemma {:induction false} TrimEndRemovesSpace(s: string)
    ensures var r := TrimEnd(s);
      && |r| <= |s| && r == s[..|r|]
      && AllSpace(s[|r|..])
      && (r != [] ==> !IsSpace(r[|r| - 1]))
  {
    if s != [] && IsSpace(s[|s| - 1]) {
      TrimEndRemovesSpace(s[..|s| - 1]);
      var r := TrimEnd(s);
      assert s[..|s| - 1][..|r|] == s[..|r|];
      assert s[|r|..] == s[..|s| - 1][|r|..] + [s[|s| - 1]];
    }
  }

  /** `s.trim() === ''`, i.e. `s` is blank. */
  predicate IsBlank(s: string) {
    Trim(s) == ""
  }

  /** A string is blank exactly when every character of it is white space. */
  lemma BlankIffAllSpace(s: string)
    ensures IsBlank(s) <==> AllSpace(s)
  {
    var t := TrimStart(s);
    TrimStartRemovesSpace(s);
    TrimEndRemovesSpace(t);
    if !AllSpace(s) {
      var i :| 0 <= i < |s| && !IsSpace(s[i]);
    }
  }

  function LowerChar(c: char): char {
    if 'A' <= c <= 'Z' then (c as int + 32) as char else c
  }

  /** ASCII lower-casing, the case folding of a case-insensitive match. */
  function Lower(s: string): (r: string)
    ensures |r| == |s|
    ensures forall i :: 0 <= i < |s| ==> r[i] == LowerChar(s[i])
  {
    seq(|s|, i requires 0 <= i < |s| => LowerChar(s[i]))
  }

  predicate IsPrefix(p: string, s: string) {
    |p| <= |s| && s[..|p|] == p
  }

  /** `s` has `needle` at position `i`. */
  ghost predicate OccursAt(s: string, needle: string, i: int) {
    0 <= i && i + |needle| <= |s| && s[i..i + |needle|] == needle
  }

  /** Substring search, scanning `s` from the left. */
  function Contains(s: string, needle: string): bool
    decreases |s|
  {
    if IsPrefix(needle, s) then true
    else if s == [] then false
    else Contains(s[1..], needle)
  }

  /** `Contains` finds `needle` exactly when it occurs somewhere in `s`. */
  lemma {:induction false} ContainsIffOccurs(s: string, needle: string)
    ensures Contains(s, needle) <==> exists i :: OccursAt(s, needle, i)
    decreases |s|
  {
    if IsPrefix(needle, s) {
      assert OccursAt(s, needle, 0);
    } else if s == [] {
      assert forall i :: !OccursAt(s, needle, i);
    } else {
      ContainsIffOccurs(s[1..], needle);
      assert forall i :: OccursAt(s[1..], needle, i) ==> OccursAt(s, needle, i + 1);
      assert forall i :: OccursAt(s, needle, i) && i > 0 ==> OccursAt(s[1..], needle, i - 1);
      assert !OccursAt(s, needle, 0);
    }
  }

  /** Case-insensitive substring search (ASCII folding). */
  predicate ContainsIgnoreCase(s: string, needle: string) {
    Contains(Lower(s), Lower(needle))
  }

  /** `s.includes(c)` for a one-character string. */
  predicate HasChar(s: string, c: char) {
    c in s
  }

  /** `s.split(sep)` for a one-character separator: always at least one part. */
  function Split(s: string, sep: char): (r: seq<string>)
    ensures |r| >= 1
    ensures forall k :: 0 <= k < |r| ==> sep !in r[k]
    decreases |s|
  {
    if s == [] then [""]
    else if s[0] == sep then [""] + Split(s[1..], sep)
    else
      var t := Split(s[1..], sep);
      [[s[0]] + t[0]] + t[1..]
  }

  /** `parts.join(sep)`. */
  function Join(parts: seq<string>, sep: string): string
    decreases |parts|
  {
    if parts == [] then ""
    else if |parts| == 1 then parts[0]
    else parts[0] + sep + Join(parts[1..], sep)
  }

  /** Joining the parts of a split gives the string back. */
  lemma {:induction false} JoinSplit(s: string, sep: char)
    ensures Join(Split(s, sep), [sep]) == s
    decreases |s|
  {
    if s == [] {
    } else if s[0] == sep {
      JoinSplit(s[1..], sep);
      var t := Split(s[1..], sep);
      assert Split(s, sep) == [""] + t;
      assert ([""] + t)[1..] == t;
    } else {
      JoinSplit(s[1..], sep);
      var t := Split(s[1..], sep);
      if |t| == 1 {
        assert Split(s, sep) == [[s[0]] + t[0]];
      } else {
        var r := Split(s, sep);
        assert r[1..] == t[1..];
        assert Join(t, [sep]) == t[0] + [sep] + Join(t[1..], [sep]);
        assert s == [s[0]] + s[1..];
      }
    }
  }

  /** Splitting a join recovers the parts when no part contains the separator. */
  lemma {:induction false} SplitJoin(parts: seq<string>, sep: char)
    requires |parts| >= 1
    requires forall k :: 0 <= k < |parts| ==> sep !in parts[k]
    ensures Split(Join(parts, [sep]), sep) == parts
    decreases |parts|
  {
    if |parts| == 1 {
      SplitNoSep(parts[0], sep);
    } else {
      SplitJoin(parts[1..], sep);
      SplitPrefix(parts[0], Join(parts[1..], [sep]), sep);
      assert parts == [parts[0]] + parts[1..];
    }
  }

  lemma {:induction false} SplitNoSep(s: string, sep: char)
    requires sep !in s
    ensures Split(s, sep) == [s]
    decreases |s|
  {
    if s != [] {
      SplitNoSep(s[1..], sep);
      assert s == [s[0]] + s[1..];
    }
  }

  /** A string that holds the separator splits into at least two fields. */
  lemma {:induction false} SplitAtSep(s: string, sep: char)
    requires sep in s
    ensures |Split(s, sep)| >= 2
    decreases |s|
  {
    if s[0] != sep {
      SplitAtSep(s[1..], sep);
    }
  }

  /** Splitting `a + sep + b`, where `a` has no separator, puts `a` first. */
  lemma {:induction false} SplitPrefix(a: string, b: string, sep: char)
    requires sep !in a
    ensures Split(a + [sep] + b, sep) == [a] + Split(b, sep)
    decreases |a|
  {
    if a == [] {
      assert a + [sep] + b == [sep] + b;
      assert ([sep] + b)[1..] == b;
    } else {
      assert (a + [sep] + b)[1..] == a[1..] + [sep] + b;
      SplitPrefix(a[1..], b, sep);
      assert a == [a[0]] + a[1..];
    }
  }

  /** Joining one more part appends the separator and that part. */
  lemma {:induction false} JoinSnoc(parts: seq<string>, x: string, sep: string)
    requires |parts| >= 1
    ensures Join(parts + [x], sep) == Join(parts, sep) + sep + x
    decreases |parts|
  {
    if |parts| == 1 {
      assert (parts + [x])[1..] == [x];
    } else {
      assert (parts + [x])[1..] == parts[1..] + [x];
      JoinSnoc(parts[1..], x, sep);
    }
  }

  /** A joined string contains the separator character only between parts. */
  lemma {:induction false} JoinNoChar(parts: seq<string>, sep: string, c: char)
    requires c !in sep
    requires forall k :: 0 <= k < |parts| ==> c !in parts[k]
    ensures c !in Join(parts, sep)
    decreases |parts|
  {
    if |parts| > 1 {
      JoinNoChar(parts[1..], sep, c);
    }
  }
}

/**
 * JavaScript's `parseInt` (no radix) and the decimal rendering of integers
 * (`${n}` in a template literal).
 */
module JsNumber {
  import opened Base
  import opened Text

  predicate IsDigit(c: char) {
    '0' <= c <= '9'
  }

  function DigitValue(c: char): (d: nat)
    requires IsDigit(c)
    ensures d < 10
  {
    c as int - '0' as int
  }

  function DigitChar(d: nat): (c: char)
    requires d < 10
    ensures IsDigit(c) && DigitValue(c) == d
  {
    ('0' as int + d) as char
  }

  predicate IsHexDigit(c: char) {
    IsDigit(c) || 'a' <= c <= 'f' || 'A' <= c <= 'F'
  }

  function HexDigitValue(c: char): (d: nat)
    requires IsHexDigit(c)
    ensures d < 16
  {
    if IsDigit(c) then DigitValue(c)
    else if 'a' <= c <= 'f' then c as int - 'a' as int + 10
    else c as int - 'A' as int + 10
  }

  predicate AllDigits(s: string, radix: nat) {
    forall i :: 0 <= i < |s| ==> if radix == 16 then IsHexDigit(s[i]) else IsDigit(s[i])
  }

  function Digit(c: char, radix: nat): nat
    requires if radix == 16 then IsHexDigit(c) else IsDigit(c)
  {
    if radix == 16 then HexDigitValue(c) else DigitValue(c)
  }

  /** The longest prefix of `s` made of digits of `radix` (10 or 16). */
  function DigitPrefix(s: string, radix: nat): (r: string)
    ensures |r| <= |s| && r == s[..|r|] && AllDigits(r, radix)
    ensures |r| < |s| ==> !(if radix == 16 then IsHexDigit(s[|r|]) else IsDigit(s[|r|]))
  {
    if s != [] && (if radix == 16 then IsHexDigit(s[0]) else IsDigit(s[0])) then
      [s[0]] + DigitPrefix(s[1..], radix)
    else []
  }

  /** The value of a digit string, most significant digit first. */
  function Value(ds: string, radix: nat): nat
    requires AllDigits(ds, radix)
    decreases |ds|
  {
    if ds == [] then 0
    else Value(ds[..|ds| - 1], radix) * radix + Digit(ds[|ds| - 1], radix)
  }

  /** The digits after the sign: a `0x`/`0X` prefix selects radix 16, else radix 10. */
  function ParseMagnitude(u: string): Option<nat> {
    if |u| >= 2 && u[0] == '0' && (u[1] == 'x' || u[1] == 'X') then
      var ds := DigitPrefix(u[2..], 16);
      if ds == [] then None else Some(Value(ds, 16))
    else
      var ds := DigitPrefix(u, 10);
      if ds == [] then None else Some(Value(ds, 10))
  }

  /**
   * `parseInt(s)`: skip leading white space, read an optional sign, then the
   * longest run of digits (hexadecimal after `0x`); no digit gives NaN (`None`).
   */
  function ParseInt(s: string): Option<int> {
    var t := TrimStart(s);
    var negative := t != [] && t[0] == '-';
    var m := ParseMagnitude(if t != [] && (t[0] == '-' || t[0] == '+') then t[1..] else t);
    if m.None? then None
    else if negative then Some(-(m.value as int))
    else Some(m.value)
  }

  /** `${n}` for a natural number: its decimal digits, no leading zero. */
  function NatToString(n: nat): (s: string)
    ensures |s| >= 1 && AllDigits(s, 10)
    ensures |s| > 1 ==> s[0] != '0'
  {
    if n < 10 then [DigitChar(n)] else NatToString(n / 10) + [DigitChar(n % 10)]
  }

  /** `${i}` for an integer. */
  function IntToString(i: int): string {
    if i < 0 then "-" + NatToString(-i) else NatToString(i)
  }

  lemma {:induction false} ValueOfNatToString(n: nat)
    ensures Value(NatToString(n), 10) == n
  {
    if n >= 10 {
      ValueOfNatToString(n / 10);
      var s := NatToString(n);
      assert s[..|s| - 1] == NatToString(n / 10);
    }
  }

  lemma DigitPrefixAll(s: string)
    requires AllDigits(s, 10)
    ensures DigitPrefix(s, 10) == s
  {
  }

  lemma MagnitudeOfDigits(d: string)
    requires |d| >= 1 && AllDigits(d, 10)
    ensures ParseMagnitude(d) == Some(Value(d, 10))
  {
    if |d| >= 2 {
      assert IsDigit(d[1]);
    }
    DigitPrefixAll(d);
  }

  lemma TrimStartNoSpace(s: string)
    requires s != [] && !IsSpace(s[0])
    ensures TrimStart(s) == s
  {
  }

  /** `parseInt` of a digit string is its value. */
  lemma ParseIntOfDigits(d: string)
    requires |d| >= 1 && AllDigits(d, 10)
    ensures ParseInt(d) == Some(Value(d, 10))
  {
    assert IsDigit(d[0]);
    TrimStartNoSpace(d);
    MagnitudeOfDigits(d);
  }

  /** `parseInt` of a minus sign and a digit string is the negated value. */
  lemma ParseIntOfNegative(s: string)
    requires |s| >= 2 && s[0] == '-' && AllDigits(s[1..], 10)
    ensures ParseInt(s) == Some(-(Value(s[1..], 10) as int))
  {
    TrimStartNoSpace(s);
    MagnitudeOfDigits(s[1..]);
  }

  /** The server's `parseInt` reads back exactly the number the client wrote. */
  lemma ParseIntOfIntToString(i: int)
    ensures ParseInt(IntToString(i)) == Some(i)
  {
    var n: nat := if i < 0 then -i else i;
    ValueOfNatToString(n);
    if i < 0 {
      var s := IntToString(i);
      assert s[1..] == NatToString(n);
      ParseIntOfNegative(s);
    } else {
      ParseIntOfDigits(NatToString(n));
    }
  }
}
