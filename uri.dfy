/**
 * `encodeURIComponent`, which the pages use to put the search text into a
 * query string, and the reading side of a query string (`URLSearchParams`,
 * which the API routes use): percent-decoding, `+` as a space, and UTF-8.
 */
module Uri {
  import opened Base
  import opened Text
  import JsNumber

  type Byte = b: int | 0 <= b < 256

  /** The characters `encodeURIComponent` leaves as they are. */
  predicate IsUnreserved(c: char) {
    ('A' <= c <= 'Z') || ('a' <= c <= 'z') || ('0' <= c <= '9')
    || c == '-' || c == '_' || c == '.' || c == '!' || c == '~' || c == '*'
    || c == '\'' || c == '(' || c == ')'
  }

  predicate IsUpperHex(c: char) {
    ('0' <= c <= '9') || ('A' <= c <= 'F')
  }

  /** What an encoded component may contain: unreserved characters and `%XX` escapes. */
  predicate IsEncodedChar(c: char) {
    IsUnreserved(c) || c == '%' || IsUpperHex(c)
  }

  /** The UTF-8 bytes of one Unicode scalar value. */
  function Utf8(c: char): (bs: seq<Byte>)
    ensures 1 <= |bs| <= 4
  {
    var v := c as int;
    if v < 0x80 then [v]
    else if v < 0x800 then [0xC0 + v / 64, 0x80 + v % 64]
    else if v < 0x10000 then [0xE0 + v / 4096, 0x80 + (v / 64) % 64, 0x80 + v % 64]
    else [0xF0 + v / 262144, 0x80 + (v / 4096) % 64, 0x80 + (v / 64) % 64, 0x80 + v % 64]
  }

  function Utf8String(s: string): seq<Byte> {
    if s == [] then [] else Utf8(s[0]) + Utf8String(s[1..])
  }

  function HexUpper(d: nat): (c: char)
    requires d < 16
    ensures IsUpperHex(c) && JsNumber.IsHexDigit(c) && JsNumber.HexDigitValue(c) == d
  {
    if d < 10 then ('0' as int + d) as char else ('A' as int + d - 10) as char
  }

  /** `%XX` with upper-case hexadecimal digits. */
  function PercentByte(b: Byte): string {
    ['%', HexUpper(b / 16), HexUpper(b % 16)]
  }

  function PercentBytes(bs: seq<Byte>): string {
    if bs == [] then "" else PercentByte(bs[0]) + PercentBytes(bs[1..])
  }

  function EncodeChar(c: char): string {
    if IsUnreserved(c) then [c] else PercentBytes(Utf8(c))
  }

  /** `encodeURIComponent(s)`. */
  function EncodeComponent(s: string): (r: string)
    ensures forall i :: 0 <= i < |r| ==> IsEncodedChar(r[i])
  {
    if s == [] then ""
    else
      EncodedCharSafe(s[0]);
      EncodeChar(s[0]) + EncodeComponent(s[1..])
  }

  lemma {:induction false} PercentBytesSafe(bs: seq<Byte>)
    ensures forall i :: 0 <= i < |PercentBytes(bs)| ==> IsEncodedChar(PercentBytes(bs)[i])
  {
    if bs != [] {
      PercentBytesSafe(bs[1..]);
    }
  }

  lemma EncodedCharSafe(c: char)
    ensures forall i :: 0 <= i < |EncodeChar(c)| ==> IsEncodedChar(EncodeChar(c)[i])
  {
    if !IsUnreserved(c) {
      PercentBytesSafe(Utf8(c));
    }
  }

  /** An encoded component never contains a character that separates query parameters. */
  lemma EncodedHasNoDelimiter(s: string)
    ensures '&' !in EncodeComponent(s) && '=' !in EncodeComponent(s)
    ensures '+' !in EncodeComponent(s) && '#' !in EncodeComponent(s)
  {
  }

  /**
   * Percent-decoding of a query-string piece as `URLSearchParams` does it:
   * `%XX` gives one byte, a `%` without two hexadecimal digits stays, `+`
   * is a space, every other character gives its UTF-8 bytes.
   */
  function PercentDecode(s: string): seq<Byte>
    decreases |s|
  {
    if s == [] then []
    else if s[0] == '%' && |s| >= 3 && JsNumber.IsHexDigit(s[1]) && JsNumber.IsHexDigit(s[2]) then
      [16 * JsNumber.HexDigitValue(s[1]) + JsNumber.HexDigitValue(s[2])] + PercentDecode(s[3..])
    else if s[0] == '+' then [0x20] + PercentDecode(s[1..])
    else Utf8(s[0]) + PercentDecode(s[1..])
  }

  predicate IsContinuation(bs: seq<Byte>, i: nat) {
    i < |bs| && 0x80 <= bs[i] < 0xC0
  }

  /** Decodes the UTF-8 sequence at the start of `bs`: the character and its length. */
  function DecodeFirst(bs: seq<Byte>): (r: Option<(char, nat)>)
    requires bs != []
    ensures r.Some? ==> 1 <= r.value.1 <= |bs|
  {
    var b0: int := bs[0];
    if b0 < 0x80 then Some((b0 as char, 1))
    else if 0xC2 <= b0 < 0xE0 then
      if IsContinuation(bs, 1) then Some((((b0 - 0xC0) * 64 + (bs[1] as int - 0x80)) as char, 2))
      else None
    else if 0xE0 <= b0 < 0xF0 then
      if IsContinuation(bs, 1) && IsContinuation(bs, 2) then
        var v := (b0 - 0xE0) * 4096 + (bs[1] as int - 0x80) * 64 + (bs[2] as int - 0x80);
        if 0x800 <= v && !(0xD800 <= v < 0xE000) then Some((v as char, 3)) else None
      else None
    else if 0xF0 <= b0 < 0xF5 then
      if IsContinuation(bs, 1) && IsContinuation(bs, 2) && IsContinuation(bs, 3) then
        var v := (b0 - 0xF0) * 262144 + (bs[1] as int - 0x80) * 4096 + (bs[2] as int - 0x80) * 64 + (bs[3] as int - 0x80);
        if 0x10000 <= v <= 0x10FFFF then Some((v as char, 4)) else None
      else None
    else None
  }

  /** UTF-8 decoding; `None` for a malformed byte sequence. */
  function Utf8Decode(bs: seq<Byte>): Option<string>
    decreases |bs|
  {
    if bs == [] then Some("")
    else match DecodeFirst(bs)
      case None => None
      case Some((c, n)) =>
        match Utf8Decode(bs[n..])
        case None => None
        case Some(rest) => Some([c] + rest)
  }

  /** The value of one query-string piece as `URLSearchParams` reads it. */
  function DecodeComponent(s: string): Option<string> {
    Utf8Decode(PercentDecode(s))
  }

  lemma DecodeFirstUtf8(c: char, rest: seq<Byte>)
    ensures DecodeFirst(Utf8(c) + rest) == Some((c, |Utf8(c)|))
  {
    var v := c as int;
    var bs := Utf8(c) + rest;
    if v < 0x80 {
    } else if v < 0x800 {
      assert (v / 64) * 64 + v % 64 == v;
    } else if v < 0x10000 {
      assert (v / 64) / 64 == v / 4096;
      assert (v / 4096) * 4096 + ((v / 64) % 64) * 64 + v % 64 == v;
    } else {
      assert (v / 64) / 64 == v / 4096;
      assert (v / 4096) / 64 == v / 262144;
      assert (v / 262144) * 262144 + ((v / 4096) % 64) * 4096 + ((v / 64) % 64) * 64 + v % 64 == v;
    }
  }

  lemma {:induction false} Utf8RoundTrip(s: string)
    ensures Utf8Decode(Utf8String(s)) == Some(s)
  {
    if s != [] {
      var bs := Utf8String(s);
      DecodeFirstUtf8(s[0], Utf8String(s[1..]));
      assert bs[|Utf8(s[0])|..] == Utf8String(s[1..]);
      Utf8RoundTrip(s[1..]);
      assert s == [s[0]] + s[1..];
    }
  }

  lemma {:induction false} PercentDecodeBytes(bs: seq<Byte>, rest: string)
    ensures PercentDecode(PercentBytes(bs) + rest) == bs + PercentDecode(rest)
  {
    if bs != [] {
      var b := bs[0];
      var t := PercentBytes(bs) + rest;
      assert t == PercentByte(b) + (PercentBytes(bs[1..]) + rest);
      assert t[3..] == PercentBytes(bs[1..]) + rest;
      assert t[0] == '%' && t[1] == HexUpper(b / 16) && t[2] == HexUpper(b % 16);
      assert 16 * (b / 16) + b % 16 == b;
      assert PercentDecode(t) == [b] + PercentDecode(t[3..]);
      PercentDecodeBytes(bs[1..], rest);
      assert bs == [b] + bs[1..];
    } else {
      assert PercentBytes(bs) + rest == rest;
    }
  }

  lemma {:induction false} PercentDecodeEncoded(s: string)
    ensures PercentDecode(EncodeComponent(s)) == Utf8String(s)
  {
    if s != [] {
      var c := s[0];
      PercentDecodeEncoded(s[1..]);
      if IsUnreserved(c) {
        var t := EncodeComponent(s);
        assert t == [c] + EncodeComponent(s[1..]);
        assert t[1..] == EncodeComponent(s[1..]);
      } else {
        PercentDecodeBytes(Utf8(c), EncodeComponent(s[1..]));
      }
    }
  }

  /** Reading an encoded component back gives the original text. */
  lemma DecodeEncode(s: string)
    ensures DecodeComponent(EncodeComponent(s)) == Some(s)
  {
    PercentDecodeEncoded(s);
    Utf8RoundTrip(s);
  }

  /** A piece made only of ASCII letters and digits decodes to itself. */
  predicate IsPlain(s: string) {
    forall i :: 0 <= i < |s| ==> ('A' <= s[i] <= 'Z') || ('a' <= s[i] <= 'z') || ('0' <= s[i] <= '9')
  }

  lemma DecodePlain(s: string)
    requires IsPlain(s)
    ensures EncodeComponent(s) == s
    ensures DecodeComponent(s) == Some(s)
  {
    PlainEncodesToItself(s);
    DecodeEncode(s);
  }

  lemma {:induction false} PlainEncodesToItself(s: string)
    requires IsPlain(s)
    ensures EncodeComponent(s) == s
  {
    if s != [] {
      PlainEncodesToItself(s[1..]);
      assert s == [s[0]] + s[1..];
    }
  }

  /** The text after the first `?` of a URL (empty when there is none). */
  function QueryOf(url: string): string {
    if url == [] then ""
    else if url[0] == '?' then url[1..]
    else QueryOf(url[1..])
  }

  /** A `name=value` piece split at its first `=` (no `=`: the value is empty). */
  function SplitPair(piece: string): (string, string) {
    if piece == [] then ("", "")
    else if piece[0] == '=' then ("", piece[1..])
    else var (n, v) := SplitPair(piece[1..]); ([piece[0]] + n, v)
  }

  /**
   * `new URL(url).searchParams.get(name)`: the decoded value of the first
   * non-empty piece whose decoded name is `name`.
   */
  function ParamIn(pieces: seq<string>, name: string): Option<string> {
    if pieces == [] then None
    else if pieces[0] != "" && DecodeComponent(SplitPair(pieces[0]).0) == Some(name) then
      DecodeComponent(SplitPair(pieces[0]).1)
    else ParamIn(pieces[1..], name)
  }

  function GetParam(url: string, name: string): Option<string> {
    ParamIn(Split(QueryOf(url), '&'), name)
  }

  lemma {:induction false} SplitPairAt(n: string, v: string)
    requires '=' !in n
    ensures SplitPair(n + "=" + v) == (n, v)
  {
    if n == [] {
      assert n + "=" + v == "=" + v;
    } else {
      assert (n + "=" + v)[1..] == n[1..] + "=" + v;
      SplitPairAt(n[1..], v);
      assert n == [n[0]] + n[1..];
    }
  }

  lemma {:induction false} QueryAfterPath(path: string, query: string)
    requires '?' !in path
    ensures QueryOf(path + "?" + query) == query
  {
    if path == [] {
      assert path + "?" + query == "?" + query;
    } else {
      assert (path + "?" + query)[1..] == path[1..] + "?" + query;
      QueryAfterPath(path[1..], query);
    }
  }

  /** `path?p1&p2&...`: a path and the pieces of its query string. */
  function WithQuery(path: string, pieces: seq<string>): string {
    path + "?" + Join(pieces, "&")
  }

  /** A URL with two pieces, written out. */
  lemma WithQueryPair(path: string, a: string, b: string)
    ensures WithQuery(path, [a, b]) == path + "?" + a + "&" + b
  {
    assert [a, b][1..] == [b];
    assert Join([a, b], "&") == a + "&" + b;
  }

  /** Appending `&piece` to such a URL adds the piece to its query. */
  lemma WithQuerySnoc(path: string, pieces: seq<string>, piece: string)
    requires |pieces| >= 1
    ensures WithQuery(path, pieces) + "&" + piece == WithQuery(path, pieces + [piece])
  {
    Text.JoinSnoc(pieces, piece, "&");
  }

  /** The query of `path?p1&p2&...` splits at '&' back into the pieces, when none holds a '&'. */
  lemma QueryPiecesBack(path: string, pieces: seq<string>)
    requires '?' !in path && |pieces| >= 1
    requires forall k :: 0 <= k < |pieces| ==> '&' !in pieces[k]
    ensures Split(QueryOf(WithQuery(path, pieces)), '&') == pieces
  {
    QueryAfterPath(path, Join(pieces, "&"));
    SplitJoin(pieces, '&');
  }

  // ------------------------------------------- pieces the pages write

  /** One `name=value` piece of a query string. */
  function Piece(name: string, value: string): string {
    name + "=" + value
  }

  lemma PlainHasNoDelimiter(s: string)
    requires IsPlain(s)
    ensures '&' !in s && '=' !in s && '?' !in s
  {
  }

  lemma DigitsArePlain(n: nat)
    ensures IsPlain(JsNumber.IntToString(n))
  {
    var s := JsNumber.IntToString(n);
    assert JsNumber.AllDigits(s, 10);
  }

  /** A piece named by a plain, non-empty name answers for that name and passes every other on. */
  lemma ParamInHead(n: string, v: string, rest: seq<string>, name: string)
    requires n != "" && IsPlain(n)
    ensures ParamIn([Piece(n, v)] + rest, name) == (if n == name then DecodeComponent(v) else ParamIn(rest, name))
  {
    DecodePlain(n);
    PlainHasNoDelimiter(n);
    SplitPairAt(n, v);
    assert ([Piece(n, v)] + rest)[1..] == rest;
  }

  /** A decimal number is a plain piece: it decodes to itself. */
  lemma DecodeDigits(n: nat)
    ensures DecodeComponent(JsNumber.IntToString(n)) == Some(JsNumber.IntToString(n))
  {
    DigitsArePlain(n);
    DecodePlain(JsNumber.IntToString(n));
  }
}
