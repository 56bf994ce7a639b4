/**
 * The JSON text of the list columns (`requirements`, `matched_skills`,
 * `missing_skills`, `responsibilities`, `accomplishments`, `skills_used`):
 * Python's `json.dumps` of a list of strings with its defaults
 * (`ensure_ascii`, item separator ", "), and `json.loads` of such a text
 * in the decoder's strict mode.  The decoder is restricted to a JSON array
 * of strings: any other JSON value, and any text `json.loads` rejects,
 * decode to `None`.
 */
module JsonList {
  import opened Wrappers

  // ---------------------------------------------------------------------
  // Four-digit hexadecimal escapes

  /** Lower-case hexadecimal digit, as `'{0:04x}'.format` writes it. */
  function HexDigit(d: nat): (c: char)
    requires d < 16
  {
    if d < 10 then (48 + d) as char else (87 + d) as char
  }

  /** The value of a hexadecimal digit of either case. */
  function HexValue(c: char): (r: Option<nat>)
    ensures r.Some? ==> r.value < 16
  {
    if '0' <= c <= '9' then Some(c as int - 48)
    else if 'a' <= c <= 'f' then Some(c as int - 87)
    else if 'A' <= c <= 'F' then Some(c as int - 55)
    else None
  }

  /** `'{0:04x}'.format(n)` */
  function Hex4(n: nat): (r: string)
    requires n < 0x10000
    ensures |r| == 4
  {
    [HexDigit(n / 0x1000), HexDigit(n / 0x100 % 16), HexDigit(n / 16 % 16), HexDigit(n % 16)]
  }

  /** The four hexadecimal digits at the start of `t`, when they are digits. */
  function Hex4Value(t: string): (r: Option<nat>)
    requires |t| >= 4
    ensures r.Some? ==> r.value < 0x10000
  {
    var a, b, c, d := HexValue(t[0]), HexValue(t[1]), HexValue(t[2]), HexValue(t[3]);
    if a.Some? && b.Some? && c.Some? && d.Some? then
      Some(a.value * 0x1000 + b.value * 0x100 + c.value * 16 + d.value)
    else None
  }

  lemma HexDigitValue(d: nat)
    requires d < 16
    ensures HexValue(HexDigit(d)) == Some(d)
  {
  }

  /** Four digits read back give the number written. */
  lemma Hex4RoundTrip(n: nat, rest: string)
    requires n < 0x10000
    ensures Hex4Value(Hex4(n) + rest) == Some(n)
  {
    var t := Hex4(n) + rest;
    assert t[0] == HexDigit(n / 0x1000) && t[1] == HexDigit(n / 0x100 % 16);
    assert t[2] == HexDigit(n / 16 % 16) && t[3] == HexDigit(n % 16);
    HexDigitValue(n / 0x1000);
    HexDigitValue(n / 0x100 % 16);
    HexDigitValue(n / 16 % 16);
    HexDigitValue(n % 16);
    HexSplit(n);
  }

  lemma HexSplit(n: nat)
    requires n < 0x10000
    ensures n / 0x1000 * 0x1000 + n / 0x100 % 16 * 0x100 + n / 16 % 16 * 16 + n % 16 == n
  {
    var q1 := n / 16;
    var q2 := q1 / 16;
    var q3 := q2 / 16;
    assert n == q1 * 16 + n % 16;
    assert q1 == q2 * 16 + q1 % 16;
    assert q2 == q3 * 16 + q2 % 16;
    assert n / 0x100 == q2 && n / 0x1000 == q3;
  }

  // ---------------------------------------------------------------------
  // json.dumps

  /** A character `ensure_ascii` writes as itself: printable ASCII other than the quote and the backslash. */
  predicate Plain(c: char)
  {
    ' ' <= c <= '~' && c != '"' && c != '\\'
  }

  /** The characters with a two-character escape. */
  predicate ShortEscaped(c: char)
  {
    c == '"' || c == '\\' || c == '\n' || c == '\r' || c == '\t' || c as int == 8 || c as int == 12
  }

  /** `"\uXXXX"` */
  function UnicodeEscape(n: nat): (r: string)
    requires n < 0x10000
    ensures |r| == 6
  {
    "\\u" + Hex4(n)
  }

  /** The high and low surrogates of a character beyond the basic plane. */
  function HighSurrogate(c: char): (n: nat)
    requires c as int >= 0x10000
    ensures 0xD800 <= n <= 0xDBFF
  {
    0xD800 + (c as int - 0x10000) / 0x400
  }

  function LowSurrogate(c: char): (n: nat)
    requires c as int >= 0x10000
    ensures 0xDC00 <= n <= 0xDFFF
  {
    0xDC00 + (c as int - 0x10000) % 0x400
  }

  /** How `ensure_ascii` writes one character of a string. */
  function EscapeChar(c: char): (r: string)
    ensures r != []
  {
    if Plain(c) then [c]
    else if c == '"' then "\\\""
    else if c == '\\' then "\\\\"
    else if c == '\n' then "\\n"
    else if c == '\r' then "\\r"
    else if c == '\t' then "\\t"
    else if c as int == 8 then "\\b"
    else if c as int == 12 then "\\f"
    else if c as int < 0x10000 then UnicodeEscape(c as int)
    else UnicodeEscape(HighSurrogate(c)) + UnicodeEscape(LowSurrogate(c))
  }

  function Escape(s: string): string
    decreases |s|
  {
    if s == [] then [] else EscapeChar(s[0]) + Escape(s[1..])
  }

  /** A string literal. */
  function Quote(s: string): string
  {
    "\"" + Escape(s) + "\""
  }

  /** The literals of the items, separated by ", ". */
  function Items(xs: seq<string>): string
    decreases |xs|
  {
    if xs == [] then []
    else if |xs| == 1 then Quote(xs[0])
    else Quote(xs[0]) + ", " + Items(xs[1..])
  }

  /** `json.dumps(xs)` for a list of strings. */
  function Dumps(xs: seq<string>): (r: string)
    ensures r != []
  {
    "[" + Items(xs) + "]"
  }

  // ---------------------------------------------------------------------
  // json.loads

  /** The whitespace JSON allows between tokens. */
  predicate IsWs(c: char)
  {
    c == ' ' || c == '\t' || c == '\n' || c == '\r'
  }

  function SkipWs(t: string): (r: string)
    ensures |r| <= |t|
    ensures r == [] || !IsWs(r[0])
    decreases |t|
  {
    if t != [] && IsWs(t[0]) then SkipWs(t[1..]) else t
  }

  /** The character a one-letter escape stands for. */
  function ShortEscape(e: char): (r: Option<char>)
  {
    if e == '"' then Some('"')
    else if e == '\\' then Some('\\')
    else if e == '/' then Some('/')
    else if e == 'b' then Some(8 as char)
    else if e == 'f' then Some(12 as char)
    else if e == 'n' then Some('\n')
    else if e == 'r' then Some('\r')
    else if e == 't' then Some('\t')
    else None
  }

  /** A `uXXXX` escape, the backslash already read: a surrogate pair is combined, a lone surrogate is rejected. */
  function ScanUnicode(t: string): (r: Option<(char, string)>)
    requires |t| >= 5
    ensures r.Some? ==> |r.value.1| < |t|
  {
    match Hex4Value(t[1..5])
    case None => None
    case Some(hi) =>
      if 0xD800 <= hi <= 0xDBFF then
        if |t| >= 11 && t[5] == '\\' && t[6] == 'u' then
          match Hex4Value(t[7..11])
          case None => None
          case Some(lo) =>
            if 0xDC00 <= lo <= 0xDFFF then Some(((0x10000 + (hi - 0xD800) * 0x400 + (lo - 0xDC00)) as char, t[11..]))
            else None
        else None
      else if 0xDC00 <= hi <= 0xDFFF then None
      else Some((hi as char, t[5..]))
  }

  /** The character of an escape sequence, the backslash already read, and the text after it. */
  function ScanEscape(t: string): (r: Option<(char, string)>)
    ensures r.Some? ==> |r.value.1| < |t|
  {
    if t == [] then None
    else if ShortEscape(t[0]).Some? then Some((ShortEscape(t[0]).value, t[1..]))
    else if t[0] == 'u' && |t| >= 5 then ScanUnicode(t)
    else None
  }

  /** A character in front of the rest of a scanned string literal. */
  function Cons(c: char, r: Option<(string, string)>): Option<(string, string)>
  {
    match r
    case None => None
    case Some(p) => Some(([c] + p.0, p.1))
  }

  /** The characters of a string literal, the opening quote already read, and the text after its closing quote. */
  function ScanChars(t: string): (r: Option<(string, string)>)
    ensures r.Some? ==> |r.value.1| < |t|
    decreases |t|
  {
    if t == [] then None
    else if t[0] == '"' then Some(([], t[1..]))
    else if t[0] == '\\' then
      match ScanEscape(t[1..])
      case None => None
      case Some(e) => Cons(e.0, ScanChars(e.1))
    else if (t[0] as int) < 0x20 then None
    else Cons(t[0], ScanChars(t[1..]))
  }

  /** An item in front of the rest of a scanned array. */
  function ConsItem(x: string, r: Option<(seq<string>, string)>): Option<(seq<string>, string)>
  {
    match r
    case None => None
    case Some(p) => Some(([x] + p.0, p.1))
  }

  /** What follows an item: the closing bracket, or a comma and more items. */
  function ScanAfterItem(x: string, rest: string): (r: Option<(seq<string>, string)>)
    ensures r.Some? ==> |r.value.1| < |rest|
    decreases |rest|, 0
  {
    var u := SkipWs(rest);
    if u != [] && u[0] == ']' then Some(([x], u[1..]))
    else if u != [] && u[0] == ',' then ConsItem(x, ScanItems(SkipWs(u[1..])))
    else None
  }

  /** The items of an array from its first item on, and the text after the closing bracket. */
  function ScanItems(t: string): (r: Option<(seq<string>, string)>)
    ensures r.Some? ==> |r.value.1| < |t|
    decreases |t|, 1
  {
    if t == [] || t[0] != '"' then None
    else
      match ScanChars(t[1..])
      case None => None
      case Some(p) => ScanAfterItem(p.0, p.1)
  }

  /** An array, the opening bracket already read. */
  function ScanArray(t: string): (r: Option<(seq<string>, string)>)
  {
    var u := SkipWs(t);
    if u != [] && u[0] == ']' then Some(([], u[1..])) else ScanItems(u)
  }

  /** `json.loads(text)` when it is a list of strings; `None` when it is anything else or not JSON. */
  function Loads(text: string): (r: Option<seq<string>>)
  {
    var t := SkipWs(text);
    if t != [] && t[0] == '[' then
      match ScanArray(t[1..])
      case None => None
      case Some((xs, rest)) => if SkipWs(rest) == [] then Some(xs) else None
    else None
  }

  /** `json.loads(column) if column else []`: a NULL or empty column reads as the empty list. */
  function ReadList(column: Option<string>): (r: Option<seq<string>>)
    ensures column.None? || column == Some("") ==> r == Some([])
  {
    if column.None? || column.value == "" then Some([]) else Loads(column.value)
  }

  // ---------------------------------------------------------------------
  // The round trip

  /** A two-character escape is read back as its character. */
  lemma ScanShortEscape(c: char, rest: string)
    requires ShortEscaped(c)
    ensures |EscapeChar(c)| == 2 && EscapeChar(c)[0] == '\\'
    ensures ScanEscape(EscapeChar(c)[1..] + rest) == Some((c, rest))
  {
    var t := EscapeChar(c)[1..] + rest;
    assert t[0] == EscapeChar(c)[1] && t[1..] == rest;
  }

  /** A `\uXXXX` escape of a character of the basic plane is read back as the character. */
  lemma ScanBasicEscape(c: char, rest: string)
    requires c as int < 0x10000
    ensures ScanEscape("u" + Hex4(c as int) + rest) == Some((c, rest))
  {
    var t := "u" + Hex4(c as int) + rest;
    assert t[1..5] == Hex4(c as int) + [];
    Hex4RoundTrip(c as int, []);
    assert t[5..] == rest;
  }

  /** A surrogate pair is read back as the character beyond the basic plane. */
  lemma ScanPairEscape(c: char, rest: string)
    requires c as int >= 0x10000
    ensures ScanEscape("u" + Hex4(HighSurrogate(c)) + "\\u" + Hex4(LowSurrogate(c)) + rest) == Some((c, rest))
  {
    var hi, lo := HighSurrogate(c), LowSurrogate(c);
    var t := "u" + Hex4(hi) + "\\u" + Hex4(lo) + rest;
    assert t[1..5] == Hex4(hi) + [] && t[7..11] == Hex4(lo) + [] && t[5] == '\\' && t[6] == 'u';
    Hex4RoundTrip(hi, []);
    Hex4RoundTrip(lo, []);
    var n := c as int - 0x10000;
    assert n == n / 0x400 * 0x400 + n % 0x400;
    assert t[11..] == rest;
  }

  /** A character the decoder takes literally is read as itself. */
  lemma ScanLiteralChar(c: char, tail: string)
    requires c != '"' && c != '\\' && c as int >= 0x20
    ensures ScanChars([c] + tail) == Cons(c, ScanChars(tail))
  {
    var t := [c] + tail;
    assert t[1..] == tail;
    assert ScanChars(t) == Cons(t[0], ScanChars(t[1..])) by {
      assert t != [] && t[0] == c;
    }
  }

  /** An escape sequence the decoder reads as `c`, followed by more text. */
  lemma ScanEscapeThen(e: string, c: char, tail: string)
    requires e != [] && e[0] == '\\' && ScanEscape(e[1..] + tail) == Some((c, tail))
    ensures ScanChars(e + tail) == Cons(c, ScanChars(tail))
  {
    var t := e + tail;
    assert t[1..] == e[1..] + tail;
    assert ScanChars(t) == match ScanEscape(t[1..]) case None => None case Some(x) => Cons(x.0, ScanChars(x.1)) by {
      assert t != [] && t[0] == '\\';
    }
  }

  /** A character written by `EscapeChar` is read back as that character. */
  lemma ScanCharOf(c: char, tail: string)
    ensures ScanChars(EscapeChar(c) + tail) == Cons(c, ScanChars(tail))
  {
    if Plain(c) {
      assert EscapeChar(c) == [c];
      ScanLiteralChar(c, tail);
    } else if ShortEscaped(c) {
      ScanShortEscape(c, tail);
      ScanEscapeThen(EscapeChar(c), c, tail);
    } else if c as int < 0x10000 {
      ScanBasicChar(c, tail);
    } else {
      ScanPairChar(c, tail);
    }
  }

  lemma ScanBasicChar(c: char, tail: string)
    requires !Plain(c) && !ShortEscaped(c) && c as int < 0x10000
    ensures ScanChars(EscapeChar(c) + tail) == Cons(c, ScanChars(tail))
  {
    var h := Hex4(c as int);
    var e := EscapeChar(c);
    assert e == "\\u" + h;
    ScanBasicEscape(c, tail);
    assert e[1..] == "u" + h;
    Assoc("u", h, tail);
    ScanEscapeThen(e, c, tail);
  }

  lemma ScanPairChar(c: char, tail: string)
    requires !Plain(c) && c as int >= 0x10000
    ensures ScanChars(EscapeChar(c) + tail) == Cons(c, ScanChars(tail))
  {
    var h, l := Hex4(HighSurrogate(c)), Hex4(LowSurrogate(c));
    var e := EscapeChar(c);
    assert e == "\\u" + h + ("\\u" + l);
    ScanPairEscape(c, tail);
    assert e[1..] == "u" + h + "\\u" + l;
    ScanEscapeThen(e, c, tail);
  }

  lemma Assoc<T>(a: seq<T>, b: seq<T>, c: seq<T>)
    ensures a + b + c == a + (b + c)
  {
  }

  /** An escaped string followed by the closing quote is read back as that string. */
  lemma {:induction false} ScanEscaped(s: string, rest: string)
    ensures ScanChars(Escape(s) + "\"" + rest) == Some((s, rest))
    decreases |s|
  {
    if s == [] {
      assert Escape(s) + "\"" + rest == "\"" + rest;
    } else {
      var a, b := EscapeChar(s[0]), Escape(s[1..]);
      var tail := b + "\"" + rest;
      ScanEscaped(s[1..], rest);
      assert Escape(s) == a + b;
      Assoc(a, b, "\"");
      Assoc(a, b + "\"", rest);
      ScanCharOf(s[0], tail);
      assert [s[0]] + s[1..] == s;
    }
  }

  lemma ScanQuoted(s: string, rest: string)
    ensures Quote(s) + rest == "\"" + (Escape(s) + "\"" + rest)
    ensures ScanChars(Escape(s) + "\"" + rest) == Some((s, rest))
  {
    ScanEscaped(s, rest);
  }

  /** After the first literal of the items, the scan goes on from the text after its closing quote. */
  lemma ScanItemHead(x: string, after: string)
    ensures ScanItems(Quote(x) + after) == ScanAfterItem(x, after)
  {
    var t := Quote(x) + after;
    ScanQuoted(x, after);
    assert t[1..] == Escape(x) + "\"" + after;
    assert ScanItems(t) == match ScanChars(t[1..]) case None => None case Some(p) => ScanAfterItem(p.0, p.1) by {
      assert t != [] && t[0] == '"';
    }
  }

  /** A non-empty list of items followed by the closing bracket is read back as the list. */
  lemma {:induction false} ScanItemsOf(xs: seq<string>, rest: string)
    requires xs != []
    ensures ScanItems(Items(xs) + "]" + rest) == Some((xs, rest))
    decreases |xs|
  {
    if |xs| == 1 {
      ScanLastItem(xs[0], rest);
      assert [xs[0]] == xs;
    } else {
      ScanItemsOf(xs[1..], rest);
      ScanNextItem(xs[0], xs[1..], rest);
      assert [xs[0]] + xs[1..] == xs;
    }
  }

  lemma ScanLastItem(x: string, rest: string)
    ensures ScanItems(Quote(x) + "]" + rest) == Some(([x], rest))
  {
    var after := "]" + rest;
    Assoc(Quote(x), "]", rest);
    ScanItemHead(x, after);
    assert SkipWs(after) == after && after[1..] == rest;
  }

  lemma ScanNextItem(x: string, xs: seq<string>, rest: string)
    requires xs != []
    ensures ScanItems(Quote(x) + ", " + Items(xs) + "]" + rest) == ConsItem(x, ScanItems(Items(xs) + "]" + rest))
  {
    var q, i := Quote(x), Items(xs);
    var more := i + "]" + rest;
    Assoc(q + ", ", i, "]");
    Assoc(q + ", ", i + "]", rest);
    Assoc(q, ", ", more);
    ScanItemHead(x, ", " + more);
    ItemsStartWithQuote(xs);
    ScanAfterComma(x, more);
  }

  /** After an item, a comma, a space and the next item's literal: the scan goes on at that literal. */
  lemma ScanAfterComma(x: string, more: string)
    requires more != [] && more[0] == '"'
    ensures ScanAfterItem(x, ", " + more) == ConsItem(x, ScanItems(more))
  {
    var u := ", " + more;
    SkipWsNone(u);
    assert u[1..] == " " + more;
    SkipWsSpace(more);
    SkipWsNone(more);
  }

  /** Text that does not start with whitespace is left as it is. */
  lemma SkipWsNone(t: string)
    requires t != [] && !IsWs(t[0])
    ensures SkipWs(t) == t
  {
  }

  /** A leading space is skipped. */
  lemma SkipWsSpace(t: string)
    ensures SkipWs(" " + t) == SkipWs(t)
  {
    var u := " " + t;
    assert u[0] == ' ' && u[1..] == t;
  }

  lemma ItemsStartWithQuote(xs: seq<string>)
    requires xs != []
    ensures (Items(xs) + "]")[0] == '"'
  {
  }

  /** `json.loads(json.dumps(xs)) == xs` for every list of strings. */
  lemma LoadsDumps(xs: seq<string>)
    ensures Loads(Dumps(xs)) == Some(xs)
  {
    var d, body := Dumps(xs), Items(xs) + "]";
    assert d == "[" + body;
    SkipWsNone(d);
    assert d[1..] == body;
    if xs == [] {
      assert body == "]";
      SkipWsNone(body);
    } else {
      ScanItemsOf(xs, []);
      assert body + [] == body;
      ItemsStartWithQuote(xs);
      SkipWsNone(body);
    }
  }

  /** A list column written with `json.dumps` reads back as the same list. */
  lemma ReadListDumps(xs: seq<string>)
    ensures ReadList(Some(Dumps(xs))) == Some(xs)
  {
    LoadsDumps(xs);
  }

  /** `ensure_ascii`: the text holds printable ASCII characters only. */
  lemma {:induction false} EscapeAscii(s: string)
    ensures forall i :: 0 <= i < |Escape(s)| ==> ' ' <= Escape(s)[i] <= '~'
    decreases |s|
  {
    if s != [] {
      EscapeAscii(s[1..]);
      EscapeCharAscii(s[0]);
    }
  }

  lemma EscapeCharAscii(c: char)
    ensures forall i :: 0 <= i < |EscapeChar(c)| ==> ' ' <= EscapeChar(c)[i] <= '~'
  {
    if !Plain(c) && c != '"' && c != '\\' && c != '\n' && c != '\r' && c != '\t' && c as int != 8 && c as int != 12 {
      if c as int < 0x10000 {
        Hex4Ascii(c as int);
      } else {
        Hex4Ascii(HighSurrogate(c));
        Hex4Ascii(LowSurrogate(c));
      }
    }
  }

  lemma Hex4Ascii(n: nat)
    requires n < 0x10000
    ensures forall i :: 0 <= i < 4 ==> '0' <= Hex4(n)[i] <= 'f'
  {
  }
}
