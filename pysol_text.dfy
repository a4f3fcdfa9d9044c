/**
 * The parts of Rust's `str`, `char` and integer parsing that the PySol deck
 * importer relies on, over strings as sequences of characters: character
 * classes, `trim`, `split`, `find`/`rfind`, ASCII lower-casing, decimal
 * digits and `u8` parsing, and decimal formatting of naturals.
 */
module PysolText {
  import opened Wrappers

  // ---------------------------------------------------------------------
  // Character classes

  /** `char::is_ascii_digit`. */
  predicate IsAsciiDigit(c: char)
  {
    '0' <= c <= '9'
  }

  /** `char::is_ascii_whitespace`: space, tab, line feed, form feed and carriage return (no vertical tab). */
  predicate IsAsciiWhitespace(c: char)
  {
    c == ' ' || c == '\t' || c == '\n' || c == '\U{000C}' || c == '\r'
  }

  /** `char::is_whitespace`: the Unicode White_Space property, which `str::trim` also uses. */
  predicate IsWhitespace(c: char)
  {
    || ('\t' <= c <= '\r') || c == ' ' || c == '\U{0085}' || c == '\U{00A0}' || c == '\U{1680}'
    || ('\U{2000}' <= c <= '\U{200A}') || c == '\U{2028}' || c == '\U{2029}' || c == '\U{202F}'
    || c == '\U{205F}' || c == '\U{3000}'
  }

  /** `char::to_ascii_lowercase`: `A`..`Z` become `a`..`z`, everything else is kept. */
  function ToAsciiLower(c: char): (r: char)
    ensures 'A' <= c <= 'Z' ==> 'a' <= r <= 'z' && r as int - c as int == 32
    ensures !('A' <= c <= 'Z') ==> r == c
  {
    if 'A' <= c <= 'Z' then (c as int + 32) as char else c
  }

  /** `str::to_ascii_lowercase`, which keeps every position. */
  function AsciiLower(s: string): (r: string)
    ensures |r| == |s| && forall k :: 0 <= k < |s| ==> r[k] == ToAsciiLower(s[k])
  {
    seq(|s|, k requires 0 <= k < |s| => ToAsciiLower(s[k]))
  }

  predicate AllDigits(s: string)
  {
    forall k :: 0 <= k < |s| ==> IsAsciiDigit(s[k])
  }

  // ---------------------------------------------------------------------
  // trim

  function TrimStart(s: string): (r: string)
    ensures |r| <= |s| && r == s[|s| - |r|..]
    ensures forall k :: 0 <= k < |s| - |r| ==> IsWhitespace(s[k])
    ensures r == [] || !IsWhitespace(r[0])
  {
    if s != [] && IsWhitespace(s[0]) then TrimStart(s[1..]) else s
  }

  function TrimEnd(s: string): (r: string)
    ensures |r| <= |s| && r == s[..|r|]
    ensures forall k :: |r| <= k < |s| ==> IsWhitespace(s[k])
    ensures r == [] || !IsWhitespace(r[|r| - 1])
  {
    if s != [] && IsWhitespace(s[|s| - 1]) then TrimEnd(s[..|s| - 1]) else s
  }

  /** `str::trim`: the longest middle part without White_Space at either end. */
  function Trim(s: string): (r: string)
    ensures r == [] || (!IsWhitespace(r[0]) && !IsWhitespace(r[|r| - 1]))
  {
    TrimEnd(TrimStart(s))
  }

  /** A string of digits, alone or behind one leading space, trims to itself. */
  lemma {:induction false} TrimDigits(ds: string)
    requires AllDigits(ds)
    ensures Trim(ds) == ds && Trim([' '] + ds) == ds
  {
    assert ds == [] || !IsWhitespace(ds[0]);
    assert TrimStart(ds) == ds;
    assert ds == [] || !IsWhitespace(ds[|ds| - 1]);
    assert TrimEnd(ds) == ds;
    var s := [' '] + ds;
    assert s[1..] == ds;
  }

  // ---------------------------------------------------------------------
  // find, rfind and split

  /** `str::find` for one character: its first position. */
  function FindChar(s: string, c: char): (r: Option<nat>)
    ensures r.Some? ==> r.value < |s| && s[r.value] == c && forall k :: 0 <= k < r.value ==> s[k] != c
    ensures r.None? <==> c !in s
  {
    if s == [] then None
    else if s[0] == c then Some(0)
    else match FindChar(s[1..], c)
      case None => None
      case Some(i) => Some(i + 1)
  }

  /** `str::rfind` for one character: its last position. */
  function RFindChar(s: string, c: char): (r: Option<nat>)
    ensures r.Some? ==> r.value < |s| && s[r.value] == c && forall k :: r.value < k < |s| ==> s[k] != c
    ensures r.None? <==> c !in s
  {
    if s == [] then None
    else if s[|s| - 1] == c then Some(|s| - 1)
    else RFindChar(s[..|s| - 1], c)
  }

  /** Whether `pat` occurs in `s` starting at `i`. */
  predicate OccursAt(s: string, pat: string, i: nat)
  {
    i + |pat| <= |s| && s[i..i + |pat|] == pat
  }

  /** `str::rfind` for a string pattern: the start of its last occurrence. */
  function RFindSub(s: string, pat: string): (r: Option<nat>)
    ensures r.Some? ==> OccursAt(s, pat, r.value) && forall k: nat :: r.value < k ==> !OccursAt(s, pat, k)
    ensures r.None? ==> forall k: nat :: !OccursAt(s, pat, k)
    decreases |s|
  {
    if |s| < |pat| then None
    else if s[|s| - |pat|..] == pat then Some(|s| - |pat|)
    else
      var r := RFindSub(s[..|s| - 1], pat);
      assert forall k: nat :: OccursAt(s, pat, k) && k + |pat| < |s| ==> OccursAt(s[..|s| - 1], pat, k) by {
        forall k: nat | OccursAt(s, pat, k) && k + |pat| < |s| ensures OccursAt(s[..|s| - 1], pat, k) {
          assert s[..|s| - 1][k..k + |pat|] == s[k..k + |pat|];
        }
      }
      if r.Some? then
        assert s[..|s| - 1][r.value..r.value + |pat|] == s[r.value..r.value + |pat|];
        r
      else r
  }

  /** `str::split` on one character: the pieces between separators, at least one. */
  function Split(s: string, sep: char): (r: seq<string>)
    ensures |r| >= 1
    decreases |s|
  {
    match FindChar(s, sep)
    case None => [s]
    case Some(i) => [s[..i]] + Split(s[i + 1..], sep)
  }

  /** No piece holds the separator. */
  lemma {:induction false} SplitPiecesWithoutSep(s: string, sep: char)
    ensures forall k :: 0 <= k < |Split(s, sep)| ==> sep !in Split(s, sep)[k]
    decreases |s|
  {
    match FindChar(s, sep)
    case None =>
    case Some(i) => SplitPiecesWithoutSep(s[i + 1..], sep);
  }

  /** The pieces joined back with the separator. */
  function Join(parts: seq<string>, sep: char): string
  {
    if |parts| <= 1 then (if parts == [] then [] else parts[0])
    else parts[0] + [sep] + Join(parts[1..], sep)
  }

  /** Splitting and joining are inverse: nothing is lost between the pieces. */
  lemma {:induction false} JoinSplit(s: string, sep: char)
    ensures Join(Split(s, sep), sep) == s
    decreases |s|
  {
    match FindChar(s, sep)
    case None =>
    case Some(i) =>
      JoinSplit(s[i + 1..], sep);
      assert s == s[..i] + [sep] + s[i + 1..];
  }

  /** A piece without the separator, the separator, and the rest: split takes the piece first. */
  lemma SplitFirst(a: string, sep: char, b: string)
    requires sep !in a
    ensures Split(a + [sep] + b, sep) == [a] + Split(b, sep)
  {
    var s := a + [sep] + b;
    assert s[|a|] == sep;
    assert FindChar(s, sep) == Some(|a|);
    assert s[..|a|] == a && s[|a| + 1..] == b;
  }

  /** A separator followed by a piece without one: split puts that piece last. */
  lemma {:induction false} SplitLast(a: string, sep: char, b: string)
    requires sep !in b
    ensures Split(a + [sep] + b, sep) == Split(a, sep) + [b]
    decreases |a|
  {
    match FindChar(a, sep)
    case None => SplitLastAlone(a, sep, b);
    case Some(i) =>
      var p, a2 := a[..i], a[i + 1..];
      SplitFirstPieces(a, sep, b, i);
      SplitLast(a2, sep, b);
      calc {
        Split(a + [sep] + b, sep);
        [p] + Split(a2 + [sep] + b, sep);
        [p] + (Split(a2, sep) + [b]);
        ([p] + Split(a2, sep)) + [b];
        Split(a, sep) + [b];
      }
  }

  lemma SplitLastAlone(a: string, sep: char, b: string)
    requires sep !in a && sep !in b
    ensures Split(a + [sep] + b, sep) == Split(a, sep) + [b]
  {
    SplitFirst(a, sep, b);
    assert Split(b, sep) == [b];
  }

  /** The first piece of `a`, up to its first separator at `i`, comes first with or without `b` behind. */
  lemma SplitFirstPieces(a: string, sep: char, b: string, i: nat)
    requires FindChar(a, sep) == Some(i)
    ensures Split(a + [sep] + b, sep) == [a[..i]] + Split(a[i + 1..] + [sep] + b, sep)
    ensures Split(a, sep) == [a[..i]] + Split(a[i + 1..], sep)
  {
    var a2 := a[i + 1..];
    assert a == a[..i] + [sep] + a2;
    assert a + [sep] + b == a[..i] + [sep] + (a2 + [sep] + b);
    SplitFirst(a[..i], sep, a2 + [sep] + b);
    SplitFirst(a[..i], sep, a2);
  }

  // ---------------------------------------------------------------------
  // Decimal digits

  function DigitValue(c: char): (d: nat)
    requires IsAsciiDigit(c)
    ensures d < 10
  {
    c as int - '0' as int
  }

  function DigitChar(d: nat): (c: char)
    requires d < 10
    ensures IsAsciiDigit(c) && DigitValue(c) == d
  {
    ('0' as int + d) as char
  }

  /** The value of a string of decimal digits, most significant first. */
  function DigitsValue(ds: string): nat
    requires AllDigits(ds)
  {
    if ds == [] then 0 else 10 * DigitsValue(ds[..|ds| - 1]) + DigitValue(ds[|ds| - 1])
  }

  /** A natural in decimal, without leading zeros (`format!("{}", n)`). */
  function NatToString(n: nat): (s: string)
    ensures s != [] && AllDigits(s)
    ensures |s| > 1 ==> s[0] != '0'
  {
    if n < 10 then [DigitChar(n)] else NatToString(n / 10) + [DigitChar(n % 10)]
  }

  lemma {:induction false} NatToStringValue(n: nat)
    ensures DigitsValue(NatToString(n)) == n
  {
    if n >= 10 {
      NatToStringValue(n / 10);
      var s := NatToString(n);
      assert s[..|s| - 1] == NatToString(n / 10);
    }
  }

  /** Different naturals have different decimal forms. */
  lemma NatToStringInjective(m: nat, n: nat)
    requires NatToString(m) == NatToString(n)
    ensures m == n
  {
    NatToStringValue(m);
    NatToStringValue(n);
  }

  const U8_LIMIT: nat := 0x100
  const U64_LIMIT: nat := 0x1_0000_0000_0000_0000

  /**
   * `str::parse::<u8>`: an optional `+`, then one or more decimal digits (any
   * leading zeros) whose value is below 256; anything else is an error.
   */
  function ParseU8(t: string): (r: Option<nat>)
    ensures r.Some? ==> r.value < U8_LIMIT
  {
    var digits := if t != [] && t[0] == '+' then t[1..] else t;
    if digits != [] && AllDigits(digits) && DigitsValue(digits) < U8_LIMIT then Some(DigitsValue(digits)) else None
  }

  /** What `ParseU8` accepts: the decimal form of a value below 256, or an optional `+` and digits of such a value. */
  lemma ParseU8Accepts(t: string)
    ensures ParseU8(t).Some? <==> exists n: nat :: n < U8_LIMIT && (t == NatToString(n) || ParsesAsU8(t, n))
    ensures ParseU8(t).Some? ==> ParsesAsU8(t, ParseU8(t).value)
  {
    var digits := if t != [] && t[0] == '+' then t[1..] else t;
    if digits != [] && AllDigits(digits) && DigitsValue(digits) < U8_LIMIT {
      ParsedU8(t, digits);
    } else {
      NotParsedU8(t, digits);
    }
  }

  /** `t` is an optional `+` and digits of value `n`. */
  ghost predicate ParsesAsU8(t: string, n: nat)
  {
    var digits := if t != [] && t[0] == '+' then t[1..] else t;
    digits != [] && AllDigits(digits) && DigitsValue(digits) == n
  }

  lemma ParsedU8(t: string, digits: string)
    requires digits == (if t != [] && t[0] == '+' then t[1..] else t)
    requires digits != [] && AllDigits(digits) && DigitsValue(digits) < U8_LIMIT
    ensures exists n: nat :: n < U8_LIMIT && (t == NatToString(n) || ParsesAsU8(t, n))
  {
    assert ParsesAsU8(t, DigitsValue(digits));
  }

  lemma NotParsedU8(t: string, digits: string)
    requires digits == (if t != [] && t[0] == '+' then t[1..] else t)
    requires !(digits != [] && AllDigits(digits) && DigitsValue(digits) < U8_LIMIT)
    ensures !exists n: nat :: n < U8_LIMIT && (t == NatToString(n) || ParsesAsU8(t, n))
  {
    forall n: nat | n < U8_LIMIT && t == NatToString(n) ensures false {
      NatToStringValue(n);
    }
  }

  /** Every value below 256 printed in decimal parses back to itself. */
  lemma ParseU8RoundTrip(n: nat)
    requires n < U8_LIMIT
    ensures ParseU8(NatToString(n)) == Some(n)
  {
    NatToStringValue(n);
  }
}
