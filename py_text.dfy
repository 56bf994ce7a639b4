/**
 * Python `str` operations the core relies on, restricted to ASCII case
 * mapping and ASCII whitespace: `lower`, `strip`, `in`, `find`, slicing with
 * negative bounds, `split(' ', 1)`, `rsplit(' ', 1)`, `startswith`, `join`,
 * `title`, `str(int)` and the thousands-separator format.
 */
module PyText {

  // ---------------------------------------------------------------------
  // Case

  predicate IsUpper(c: char) { 'A' <= c <= 'Z' }

  predicate IsLowerLetter(c: char) { 'a' <= c <= 'z' }

  /** A letter in the ASCII sense: the only characters `title` treats as cased. */
  predicate IsCased(c: char) { IsUpper(c) || IsLowerLetter(c) }

  function LowerChar(c: char): char
  {
    if IsUpper(c) then (c as int + 32) as char else c
  }

  /** The lower-case form of a character is no capital, differs from it exactly for capitals, and keeps it cased or uncased. */
  lemma LowerCharSpec(c: char)
    ensures !IsUpper(LowerChar(c))
    ensures IsUpper(c) <==> LowerChar(c) != c
    ensures IsCased(c) <==> IsCased(LowerChar(c))
  {
  }

  function UpperChar(c: char): (r: char)
    ensures !IsLowerLetter(r)
    ensures IsLowerLetter(c) <==> r != c
    ensures IsCased(c) <==> IsCased(r)
  {
    if IsLowerLetter(c) then (c as int - 32) as char else c
  }

  /** True when `s` has no ASCII capital letter. */
  predicate NoUpper(s: string)
  {
    forall i :: 0 <= i < |s| ==> !IsUpper(s[i])
  }

  /** `s.lower()` */
  function Lower(s: string): (r: string)
    ensures |r| == |s|
    decreases |s|
  {
    if s == [] then [] else Lower(s[..|s| - 1]) + [LowerChar(s[|s| - 1])]
  }

  /** `s.lower()` maps every character through `LowerChar`. */
  lemma {:induction false} LowerChars(s: string)
    ensures forall i :: 0 <= i < |s| ==> Lower(s)[i] == LowerChar(s[i])
    decreases |s|
  {
    if s != [] {
      LowerChars(s[..|s| - 1]);
    }
  }

  /** A text lowered character by character is the lower-case form. */
  lemma LowerOf(s: string, n: string)
    requires |s| == |n| && forall i :: 0 <= i < |s| ==> LowerChar(s[i]) == n[i]
    ensures Lower(s) == n
  {
    LowerChars(s);
  }

  /** The lower-case form has no capital letter. */
  lemma LowerNoUpper(s: string)
    ensures NoUpper(Lower(s))
  {
    LowerChars(s);
    forall i | 0 <= i < |s| ensures !IsUpper(Lower(s)[i]) {
      LowerCharSpec(s[i]);
    }
  }

  /** A string with no capital letter is its own lower-case form. */
  lemma LowerOfNoUpper(s: string)
    requires NoUpper(s)
    ensures Lower(s) == s
  {
    LowerChars(s);
  }

  lemma LowerIdempotent(s: string)
    ensures Lower(Lower(s)) == Lower(s)
  {
    LowerNoUpper(s);
    LowerOfNoUpper(Lower(s));
  }

  /** A word occurring in `s` occurs, lowercased, at the same place in `s.lower()`. */
  lemma LowerOccurs(s: string, word: string, i: int)
    requires OccursAt(s, word, i)
    ensures OccursAt(Lower(s), Lower(word), i)
  {
    var l := Lower(s);
    LowerChars(s);
    LowerChars(word);
    forall k | 0 <= k < |word| ensures l[i..i + |word|][k] == Lower(word)[k] {
      assert s[i + k] == s[i..i + |word|][k];
    }
  }

  /** A lowercase letter absent from `s` in both cases is absent from `s.lower()`. */
  lemma LowerKeepsAbsent(s: string, c: char)
    requires IsLowerLetter(c) && c !in s && UpperChar(c) !in s
    ensures c !in Lower(s)
  {
    LowerChars(s);
    forall k | 0 <= k < |s| ensures Lower(s)[k] != c {
      assert s[k] != c && s[k] != UpperChar(c);
    }
  }

  /** `s.title()`: a cased character after an uncased one is upper-cased, every other one lower-cased. */
  function Title(s: string): (r: string)
    ensures |r| == |s|
  {
    TitleFrom(s, false)
  }

  function TitleFrom(s: string, previousCased: bool): (r: string)
    ensures |r| == |s|
    ensures forall i :: 0 <= i < |s| ==> IsCased(r[i]) == IsCased(s[i])
    ensures s != [] ==> r[0] == if previousCased then LowerChar(s[0]) else UpperChar(s[0])
    decreases |s|
  {
    if s == [] then []
    else
      var c := if previousCased then LowerChar(s[0]) else UpperChar(s[0]);
      [c] + TitleFrom(s[1..], IsCased(c))
  }

  /** Lower-casing the text first does not change its title-cased form. */
  lemma {:induction false} TitleFromOfLower(s: string, previousCased: bool)
    ensures TitleFrom(Lower(s), previousCased) == TitleFrom(s, previousCased)
    decreases |s|
  {
    if s != [] {
      var l := Lower(s);
      LowerChars(s);
      LowerOf(s[1..], l[1..]);
      LowerCharSpec(s[0]);
      TitleFromOfLower(s[1..], IsCased(if previousCased then LowerChar(s[0]) else UpperChar(s[0])));
    }
  }

  /** Two texts equal up to case have the same title-cased form. */
  lemma TitleIgnoresCase(a: string, b: string)
    requires Lower(a) == Lower(b)
    ensures Title(a) == Title(b)
  {
    TitleFromOfLower(a, false);
    TitleFromOfLower(b, false);
  }

  // ---------------------------------------------------------------------
  // Whitespace

  /** The ASCII characters Python's `str.isspace` accepts. */
  predicate IsSpace(c: char)
  {
    9 <= c as int <= 13 || 28 <= c as int <= 32
  }

  predicate AllSpace(s: string)
  {
    forall i :: 0 <= i < |s| ==> IsSpace(s[i])
  }

  /** Neither end of `s` is whitespace. */
  predicate Stripped(s: string)
  {
    s == [] || (!IsSpace(s[0]) && !IsSpace(s[|s| - 1]))
  }

  /** `s.lstrip()` */
  function LStrip(s: string): (r: string)
    ensures |r| <= |s|
    ensures r == [] || !IsSpace(r[0])
    decreases |s|
  {
    if s != [] && IsSpace(s[0]) then LStrip(s[1..]) else s
  }

  /** `lstrip` removes a whitespace prefix and nothing else. */
  lemma {:induction false} LStripSpec(s: string)
    ensures LStrip(s) == s[|s| - |LStrip(s)|..]
    ensures AllSpace(s[..|s| - |LStrip(s)|])
    decreases |s|
  {
    if s != [] && IsSpace(s[0]) {
      LStripSpec(s[1..]);
      var k := |s| - |LStrip(s)|;
      assert s[1..][k - 1..] == s[k..];
      assert forall i :: 1 <= i < k ==> s[..k][i] == s[1..][..k - 1][i - 1];
    }
  }

  /** `s.rstrip()` */
  function RStrip(s: string): (r: string)
    ensures |r| <= |s|
    ensures r == [] || !IsSpace(r[|r| - 1])
    decreases |s|
  {
    if s != [] && IsSpace(s[|s| - 1]) then RStrip(s[..|s| - 1]) else s
  }

  /** `rstrip` removes a whitespace suffix and nothing else. */
  lemma {:induction false} RStripSpec(s: string)
    ensures RStrip(s) == s[..|RStrip(s)|]
    ensures AllSpace(s[|RStrip(s)|..])
    decreases |s|
  {
    if s != [] && IsSpace(s[|s| - 1]) {
      RStripSpec(s[..|s| - 1]);
      var k := |RStrip(s)|;
      assert s[..|s| - 1][..k] == s[..k];
      assert s[k..] == s[..|s| - 1][k..] + [s[|s| - 1]];
    }
  }

  /** `s.strip()` */
  function Strip(s: string): (r: string)
    ensures Stripped(r)
    ensures |r| <= |s|
  {
    var l := LStrip(s);
    var r := RStrip(l);
    assert r == [] || !IsSpace(r[0]) by {
      if r != [] {
        RStripSpec(l);
        assert r[0] == l[0];
      }
    }
    r
  }

  /** Where the stripped text starts inside `s`. */
  function StripStart(s: string): nat
  {
    |s| - |LStrip(s)|
  }

  /** The stripped text is a slice of `s`. */
  lemma StripIsSlice(s: string)
    ensures StripStart(s) + |Strip(s)| <= |s|
    ensures Strip(s) == s[StripStart(s)..StripStart(s) + |Strip(s)|]
  {
    var l := LStrip(s);
    var r := RStrip(l);
    var i := |s| - |l|;
    LStripSpec(s);
    RStripSpec(l);
    assert l == s[i..];
    assert r == l[..|r|];
    assert s[i..][..|r|] == s[i..i + |r|];
  }

  /** Character `k` of the stripped text is character `StripStart(s) + k` of `s`. */
  lemma StripChar(s: string, k: int)
    requires 0 <= k < |Strip(s)|
    ensures StripStart(s) + k < |s| && Strip(s)[k] == s[StripStart(s) + k]
  {
    StripIsSlice(s);
  }

  /** A string already free of outer whitespace is unchanged by `strip`. */
  lemma StripOfStripped(s: string)
    requires Stripped(s)
    ensures Strip(s) == s
  {
    assert LStrip(s) == s;
    assert RStrip(s) == s;
  }

  lemma StripIdempotent(s: string)
    ensures Strip(Strip(s)) == Strip(s)
  {
    StripOfStripped(Strip(s));
  }

  /** Stripping only removes whitespace, so it keeps a string free of capitals. */
  lemma StripKeepsNoUpper(s: string)
    requires NoUpper(s)
    ensures NoUpper(Strip(s))
  {
    forall k | 0 <= k < |Strip(s)| ensures !IsUpper(Strip(s)[k]) {
      StripChar(s, k);
    }
  }

  /** A character absent from `s` is absent from `s.strip()`. */
  lemma StripKeepsAbsent(s: string, c: char)
    requires c !in s
    ensures c !in Strip(s)
  {
    forall k | 0 <= k < |Strip(s)| ensures Strip(s)[k] != c {
      StripChar(s, k);
    }
  }

  // ---------------------------------------------------------------------
  // Searching

  /** `needle` occurs in `hay` starting at index `i`. */
  predicate OccursAt(hay: string, needle: string, i: int)
  {
    0 <= i && i + |needle| <= |hay| && hay[i..i + |needle|] == needle
  }

  /** Python's `needle in hay`; the empty string occurs everywhere. */
  predicate Contains(hay: string, needle: string)
  {
    exists i | 0 <= i <= |hay| - |needle| :: OccursAt(hay, needle, i)
  }

  /** A needle with a character the haystack lacks does not occur in it. */
  lemma NotContainsMissingChar(hay: string, needle: string, k: int)
    requires 0 <= k < |needle|
    requires forall i :: 0 <= i < |hay| ==> hay[i] != needle[k]
    ensures !Contains(hay, needle)
  {
    forall i | 0 <= i <= |hay| - |needle| ensures !OccursAt(hay, needle, i) {
      assert hay[i..i + |needle|][k] == hay[i + k];
    }
  }

  /** A witness position shows containment. */
  lemma ContainsAt(hay: string, needle: string, i: int)
    requires OccursAt(hay, needle, i)
    ensures Contains(hay, needle)
  {
  }

  /** `hay.find(needle, start)` for a non-negative `start`: the first occurrence at or after `start`, else -1. */
  function Find(hay: string, needle: string, start: nat): (r: int)
    ensures r == -1 || (start <= r && OccursAt(hay, needle, r))
    ensures r == -1 <==> forall i :: start <= i ==> !OccursAt(hay, needle, i)
    ensures r != -1 ==> forall i :: start <= i < r ==> !OccursAt(hay, needle, i)
    decreases |hay| - start
  {
    if start + |needle| > |hay| then -1
    else if hay[start..start + |needle|] == needle then start
    else Find(hay, needle, start + 1)
  }

  /** `s.startswith(prefix)` */
  predicate StartsWith(s: string, prefix: string)
  {
    |prefix| <= |s| && s[..|prefix|] == prefix
  }

  /** `s.endswith(suffix)` */
  predicate EndsWith(s: string, suffix: string)
  {
    |suffix| <= |s| && s[|s| - |suffix|..] == suffix
  }

  /** The index of the last `c` in `s`, or -1. */
  function LastIndexOf(s: string, c: char): (r: int)
    ensures -1 <= r < |s|
    ensures r >= 0 ==> s[r] == c
    ensures forall i :: r < i < |s| ==> s[i] != c
  {
    if s == [] then -1
    else if s[|s| - 1] == c then |s| - 1
    else LastIndexOf(s[..|s| - 1], c)
  }

  /** The index of the first `c` in `s`, or -1. */
  function FirstIndexOf(s: string, c: char): (r: int)
    ensures -1 <= r < |s|
    ensures r >= 0 ==> s[r] == c
    ensures forall i :: 0 <= i < |s| && (r == -1 || i < r) ==> s[i] != c
  {
    if s == [] then -1
    else if s[0] == c then 0
    else var k := FirstIndexOf(s[1..], c); if k == -1 then -1 else k + 1
  }

  // ---------------------------------------------------------------------
  // Slicing, splitting, joining

  /** How Python clamps a slice bound `i` for a sequence of length `len`. */
  function SliceBound(i: int, len: nat): (r: nat)
    ensures r <= len
    ensures 0 <= i ==> r == if i <= len then i else len
    ensures i < 0 ==> r == if len + i >= 0 then len + i else 0
  {
    if i < 0 then (if len + i >= 0 then len + i else 0)
    else if i <= len then i else len
  }

  /** `s[a:b]` with Python's treatment of negative and out-of-range bounds. */
  function Slice<T>(s: seq<T>, a: int, b: int): (r: seq<T>)
    ensures |r| <= |s|
  {
    var lo := SliceBound(a, |s|);
    var hi := SliceBound(b, |s|);
    if lo < hi then s[lo..hi] else []
  }

  /** `s[:n]` */
  function Take<T>(s: seq<T>, n: int): (r: seq<T>)
    ensures |r| <= |s| && r == s[..|r|]
    ensures n >= 0 ==> |r| == if n <= |s| then n else |s|
    ensures n < 0 ==> |r| == if |s| + n >= 0 then |s| + n else 0
  {
    Slice(s, 0, n)
  }

  /** `s.split(' ', 1)`: one part when there is no space, else the text before and after the first space. */
  function SplitOnce(s: string): (parts: seq<string>)
    ensures 1 <= |parts| <= 2
    ensures ' ' !in parts[0]
    ensures |parts| == 1 <==> ' ' !in s
    ensures |parts| == 1 ==> parts[0] == s
    ensures |parts| == 2 ==> s == parts[0] + " " + parts[1]
  {
    var k := FirstIndexOf(s, ' ');
    if k == -1 then [s] else
      assert s == s[..k] + " " + s[k + 1..];
      [s[..k], s[k + 1..]]
  }

  /** `s.rsplit(' ', 1)[0]`: the text before the last space, or all of `s`. */
  function BeforeLastSpace(s: string): (r: string)
    ensures |r| <= |s| && r == s[..|r|]
    ensures ' ' in s ==> |r| < |s| && s[|r|] == ' ' && ' ' !in s[|r| + 1..]
    ensures ' ' !in s ==> r == s
  {
    var k := LastIndexOf(s, ' ');
    if k == -1 then s else s[..k]
  }

  /** `sep.join(parts)` */
  function Join(sep: string, parts: seq<string>): (r: string)
    ensures parts == [] ==> r == ""
    ensures |parts| == 1 ==> r == parts[0]
  {
    if parts == [] then ""
    else if |parts| == 1 then parts[0]
    else parts[0] + sep + Join(sep, parts[1..])
  }

  /** Joining one more part adds the separator and that part at the end. */
  lemma {:induction false} JoinSnoc(sep: string, parts: seq<string>, p: string)
    requires parts != []
    ensures Join(sep, parts + [p]) == Join(sep, parts) + sep + p
  {
    if |parts| == 1 {
      assert parts + [p] == [parts[0], p];
    } else {
      assert (parts + [p])[1..] == parts[1..] + [p];
      JoinSnoc(sep, parts[1..], p);
    }
  }

  /** Every part occurs in the joined text. */
  lemma {:induction false} JoinContains(sep: string, parts: seq<string>, k: int)
    requires 0 <= k < |parts|
    ensures Contains(Join(sep, parts), parts[k])
    decreases |parts|
  {
    var j := Join(sep, parts);
    if k == 0 {
      assert OccursAt(j, parts[0], 0);
    } else {
      var rest := Join(sep, parts[1..]);
      JoinContains(sep, parts[1..], k - 1);
      var i :| 0 <= i <= |rest| - |parts[k]| && OccursAt(rest, parts[k], i);
      var pre := parts[0] + sep;
      assert j == pre + rest;
      assert j[|pre| + i..|pre| + i + |parts[k]|] == rest[i..i + |parts[k]|];
      assert OccursAt(j, parts[k], |pre| + i);
    }
  }

  // ---------------------------------------------------------------------
  // Numbers as text

  function DigitChar(d: nat): (c: char)
    requires d < 10
    ensures '0' <= c <= '9'
  {
    ('0' as int + d) as char
  }

  /** `str(n)` for a non-negative integer. */
  function NatToString(n: nat): (r: string)
    ensures 1 <= |r|
    ensures forall i :: 0 <= i < |r| ==> '0' <= r[i] <= '9'
    ensures (|r| == 1) == (n < 10)
    decreases n
  {
    if n < 10 then [DigitChar(n)] else NatToString(n / 10) + [DigitChar(n % 10)]
  }

  /** `str(i)` */
  function IntToString(i: int): (r: string)
    ensures 1 <= |r|
    ensures i < 0 <==> r[0] == '-'
  {
    if i < 0 then "-" + NatToString(-i) else NatToString(i)
  }

  /** A number below 1000 with leading zeros to three digits. */
  function ThreeDigits(n: nat): (r: string)
    requires n < 1000
    ensures |r| == 3 && forall i :: 0 <= i < 3 ==> '0' <= r[i] <= '9'
  {
    [DigitChar(n / 100), DigitChar(n / 10 % 10), DigitChar(n % 10)]
  }

  /** The digits of `n`, with a comma before every group of three from the right. */
  function GroupThousands(n: nat): (r: string)
    ensures 1 <= |r| && '0' <= r[0] <= '9'
    ensures n < 1000 ==> r == NatToString(n)
    ensures n >= 1000 ==> |r| >= 5 && r[|r| - 4] == ','
    decreases n
  {
    if n < 1000 then NatToString(n)
    else GroupThousands(n / 1000) + "," + ThreeDigits(n % 1000)
  }

  /** `f"{i:,}"` for an integer. */
  function FormatThousands(i: int): (r: string)
    ensures 1 <= |r|
    ensures i < 0 <==> r[0] == '-'
  {
    if i < 0 then "-" + GroupThousands(-i) else GroupThousands(i)
  }

  /** `f"${n:,}"` */
  function Dollars(n: int): (r: string)
    ensures |r| >= 2 && r[0] == '$'
  {
    "$" + FormatThousands(n)
  }

  // ---------------------------------------------------------------------
  // What the number texts mean

  /** The number a string of decimal digits spells (`int(s)` for digits only). */
  function DigitsValue(s: string): int
    decreases |s|
  {
    if s == [] then 0 else 10 * DigitsValue(s[..|s| - 1]) + (s[|s| - 1] as int - '0' as int)
  }

  /** `int(s)` for an optionally signed string of digits. */
  function SignedValue(s: string): int
  {
    if s != [] && s[0] == '-' then -DigitsValue(s[1..]) else DigitsValue(s)
  }

  /** `str(n)` spells `n`, and starts with `0` only for zero. */
  lemma {:induction false} NatToStringValue(n: nat)
    ensures DigitsValue(NatToString(n)) == n
    ensures NatToString(n)[0] == '0' ==> n == 0
    decreases n
  {
    if n >= 10 {
      NatToStringValue(n / 10);
      var s := NatToString(n);
      assert s[..|s| - 1] == NatToString(n / 10);
      assert s[0] == NatToString(n / 10)[0];
    }
  }

  /** `int(str(i)) == i` */
  lemma IntToStringValue(i: int)
    ensures SignedValue(IntToString(i)) == i
  {
    if i < 0 {
      NatToStringValue(-i);
      assert IntToString(i)[1..] == NatToString(-i);
    } else {
      NatToStringValue(i);
    }
  }

  /** `s.replace(",", "")` */
  function RemoveCommas(s: string): (r: string)
    ensures |r| <= |s|
    decreases |s|
  {
    if s == [] then []
    else if s[|s| - 1] == ',' then RemoveCommas(s[..|s| - 1])
    else RemoveCommas(s[..|s| - 1]) + [s[|s| - 1]]
  }

  lemma {:induction false} RemoveCommasAppend(a: string, b: string)
    ensures RemoveCommas(a + b) == RemoveCommas(a) + RemoveCommas(b)
    decreases |b|
  {
    if b == [] {
      assert a + b == a;
    } else {
      var b' := b[..|b| - 1];
      RemoveCommasAppend(a, b');
      assert (a + b)[..|a + b| - 1] == a + b';
      assert (a + b)[|a + b| - 1] == b[|b| - 1];
    }
  }

  lemma {:induction false} RemoveCommasOfDigits(s: string)
    requires forall i :: 0 <= i < |s| ==> '0' <= s[i] <= '9'
    ensures RemoveCommas(s) == s
    decreases |s|
  {
    if s != [] {
      RemoveCommasOfDigits(s[..|s| - 1]);
    }
  }

  lemma NatToStringShort(n: nat)
    requires n < 1000
    ensures |NatToString(n)| <= 3
  {
    if n >= 10 {
      assert NatToString(n) == NatToString(n / 10) + [DigitChar(n % 10)];
      if n >= 100 {
        assert NatToString(n / 10) == NatToString(n / 100) + [DigitChar(n / 10 % 10)];
      }
    }
  }

  /** How the last three decimal digits of `n` relate to those of `n % 1000`. */
  lemma LastThreeDigits(n: nat)
    ensures n / 10 / 10 == n / 100 && n / 100 / 10 == n / 1000
    ensures n % 10 == n % 1000 % 10 && n / 10 % 10 == n % 1000 / 10 % 10 && n / 100 % 10 == n % 1000 / 100
  {
    var q, r := n / 1000, n % 1000;
    assert n == 1000 * q + r;
    assert n / 10 == 100 * q + r / 10 && n % 10 == r % 10;
    assert n / 100 == 10 * q + r / 100;
  }

  /** The digits of a number of four or more digits are those of its thousands followed by its last three. */
  lemma NatToStringSplit(n: nat)
    requires n >= 1000
    ensures NatToString(n) == NatToString(n / 1000) + ThreeDigits(n % 1000)
  {
    var a, b, r := n / 10, n / 100, n % 1000;
    LastThreeDigits(n);
    assert NatToString(n) == NatToString(a) + [DigitChar(r % 10)];
    assert NatToString(a) == NatToString(b) + [DigitChar(r / 10 % 10)];
    assert NatToString(b) == NatToString(n / 1000) + [DigitChar(r / 100)];
  }

  lemma ThreeDigitsHasNoCommas(m: nat)
    requires m < 1000
    ensures RemoveCommas(ThreeDigits(m)) == ThreeDigits(m)
  {
    RemoveCommasOfDigits(ThreeDigits(m));
  }

  /** Removing the separators from the grouped text gives `str(n)`. */
  lemma {:induction false} GroupThousandsDigits(n: nat)
    ensures RemoveCommas(GroupThousands(n)) == NatToString(n)
    decreases n
  {
    if n < 1000 {
      RemoveCommasOfDigits(NatToString(n));
    } else {
      var g, t := GroupThousands(n / 1000), ThreeDigits(n % 1000);
      assert GroupThousands(n) == (g + ",") + t;
      assert RemoveCommas(g) == NatToString(n / 1000) by {
        GroupThousandsDigits(n / 1000);
      }
      assert RemoveCommas(g + ",") == RemoveCommas(g) by {
        RemoveCommasAppend(g, ",");
        assert RemoveCommas(",") == [];
      }
      ThreeDigitsHasNoCommas(n % 1000);
      RemoveCommasAppend(g + ",", t);
      NatToStringSplit(n);
    }
  }

  /**
   * A digit string grouped by thousands: a comma exactly at every fourth
   * place counted from the right end, digits everywhere else, and a first
   * group of one to three digits.  So every comma is followed by exactly
   * three digits and then a comma or the end.
   */
  predicate Grouped(s: string)
  {
    && |s| % 4 != 0
    && forall i :: 0 <= i < |s| ==> if (|s| - i) % 4 == 0 then s[i] == ',' else '0' <= s[i] <= '9'
  }

  /** One more group of three digits keeps a grouped text grouped. */
  lemma GroupedAppend(g: string, t: string)
    requires Grouped(g)
    requires |t| == 3 && forall i :: 0 <= i < 3 ==> '0' <= t[i] <= '9'
    ensures Grouped(g + "," + t)
  {
    var s := g + "," + t;
    forall i | 0 <= i < |s|
      ensures if (|s| - i) % 4 == 0 then s[i] == ',' else '0' <= s[i] <= '9'
    {
      if i < |g| {
        assert s[i] == g[i];
        assert |s| - i == (|g| - i) + 4;
      } else if i > |g| {
        assert s[i] == t[i - |g| - 1];
      }
    }
  }

  lemma {:induction false} GroupThousandsGrouped(n: nat)
    ensures Grouped(GroupThousands(n))
    decreases n
  {
    if n < 1000 {
      NatToStringShort(n);
    } else {
      GroupThousandsGrouped(n / 1000);
      GroupedAppend(GroupThousands(n / 1000), ThreeDigits(n % 1000));
    }
  }

  /**
   * `f"{i:,}"` is `str(i)` with separators: without its commas it is
   * `str(i)`, so it spells `i`, and after an optional sign its digits are
   * grouped by thousands.
   */
  lemma FormatThousandsSpec(i: int)
    ensures RemoveCommas(FormatThousands(i)) == IntToString(i)
    ensures SignedValue(RemoveCommas(FormatThousands(i))) == i
    ensures Grouped(if i < 0 then FormatThousands(i)[1..] else FormatThousands(i))
  {
    var m := if i < 0 then -i else i;
    GroupThousandsDigits(m);
    GroupThousandsGrouped(m);
    IntToStringValue(i);
    if i < 0 {
      RemoveCommasAppend("-", GroupThousands(m));
      assert RemoveCommas("-") == "-";
      assert FormatThousands(i)[1..] == GroupThousands(m);
    }
  }

  /** `f"${n:,}"` is a dollar sign before the grouped text of `n`. */
  lemma DollarsSpec(n: int)
    ensures Dollars(n)[1..] == FormatThousands(n)
    ensures SignedValue(RemoveCommas(Dollars(n)[1..])) == n
  {
    FormatThousandsSpec(n);
  }
}
