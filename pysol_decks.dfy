/**
 * Importing PySolFC deals: the bracketed list `[51, 32, 3, ...]` that the
 * dump script prints (card indices already in this program's encoding),
 * the scan of free text for such lists, the seed-string normaliser, the
 * PySol-to-local suit remapping, and the integer LCRandom31 generator with
 * its Fisher-Yates shuffle.
 */
module PysolDecks {
  import opened Wrappers
  import opened Cards
  import opened PysolText

  // ---------------------------------------------------------------------
  // parse_bracketed_deck_list

  /** Why a bracketed list is refused; one variant per error message of `parse_bracketed_deck_list`. */
  datatype ParseError =
    | MissingOpen             // "missing '['"
    | MissingClose            // "missing ']'"
    | Malformed               // "malformed [...] list"
    | NotU8(segment: string)  // "could not parse '..' as u8"
    | WrongCount(count: nat)  // "deck list must have 52 numbers, got .."
    | OutOfRange(value: nat)  // "card index .. out of range 0..=51"
    | Duplicate(value: nat)   // "duplicate card index .."

  /** The first `[` and the last `]`, which must come after it. */
  function Brackets(s: string): (r: Result<(nat, nat), ParseError>)
    ensures r.Ok? ==> r.value.0 < r.value.1 < |s| && s[r.value.0] == '[' && s[r.value.1] == ']'
  {
    match FindChar(s, '[')
    case None => Err(MissingOpen)
    case Some(open) =>
      match RFindChar(s, ']')
      case None => Err(MissingClose)
      case Some(close) => if close <= open then Err(Malformed) else Ok((open, close))
  }

  /**
   * The bracket errors: no `[` at all; a `[` but no `]`; or no `]` after
   * the first `[`. Otherwise the span runs from the first `[` to the last `]`.
   */
  lemma BracketsCases(s: string)
    ensures Brackets(s) == Err(MissingOpen) <==> '[' !in s
    ensures Brackets(s) == Err(MissingClose) <==> '[' in s && ']' !in s
    ensures Brackets(s) == Err(Malformed) <==>
      '[' in s && ']' in s && forall k :: FindChar(s, '[').value < k < |s| ==> s[k] != ']'
    ensures Brackets(s).Ok? ==>
      && Brackets(s).value.0 == FindChar(s, '[').value && Brackets(s).value.1 == RFindChar(s, ']').value
      && (forall k :: 0 <= k < Brackets(s).value.0 ==> s[k] != '[')
      && (forall k :: Brackets(s).value.1 < k < |s| ==> s[k] != ']')
  {
    if '[' in s && ']' in s {
      var open, close := FindChar(s, '[').value, RFindChar(s, ']').value;
      if close <= open {
        assert forall k :: open < k < |s| ==> s[k] != ']';
      } else {
        assert !(forall k :: open < k < |s| ==> s[k] != ']') by {
          assert s[close] == ']';
        }
      }
    }
  }

  /**
   * The numbers of the comma-separated segments: a segment that trims to
   * nothing is skipped, and the first other one that is not a `u8` is the
   * error. Defined from the last segment, as the loop accumulates.
   */
  function SegmentNumbers(segs: seq<string>): (r: Result<seq<nat>, ParseError>)
    ensures r.Ok? ==> |r.value| <= |segs| && forall k :: 0 <= k < |r.value| ==> r.value[k] < U8_LIMIT
  {
    if segs == [] then Ok([])
    else
      match SegmentNumbers(segs[..|segs| - 1])
      case Err(e) => Err(e)
      case Ok(nums) =>
        var t := Trim(segs[|segs| - 1]);
        if t == [] then Ok(nums)
        else match ParseU8(t)
          case None => Err(NotU8(t))
          case Some(v) => Ok(nums + [v])
  }

  /** The range-and-duplicate pass over the first `k` numbers: the first offence, if any. */
  function CheckedUpTo(nums: seq<nat>, k: nat): Option<ParseError>
    requires k <= |nums|
  {
    if k == 0 then None
    else
      match CheckedUpTo(nums, k - 1)
      case Some(e) => Some(e)
      case None =>
        var v := nums[k - 1];
        if v >= CARDS_PER_DECK then Some(OutOfRange(v))
        else if v in nums[..k - 1] then Some(Duplicate(v))
        else None
  }

  /** Every number is a card index and none repeats. */
  predicate DistinctIndices(nums: seq<nat>)
  {
    && (forall i :: 0 <= i < |nums| ==> nums[i] < CARDS_PER_DECK)
    && (forall i, j :: 0 <= i < j < |nums| ==> nums[i] != nums[j])
  }

  /** The pass finds nothing exactly when the numbers are distinct card indices. */
  lemma {:induction false} CheckedNoneIff(nums: seq<nat>, k: nat)
    requires k <= |nums|
    ensures CheckedUpTo(nums, k) == None <==> DistinctIndices(nums[..k])
  {
    if k > 0 {
      CheckedNoneIff(nums, k - 1);
      var v := nums[k - 1];
      assert nums[..k][..k - 1] == nums[..k - 1];
      if CheckedUpTo(nums, k - 1) == None && v < CARDS_PER_DECK && v in nums[..k - 1] {
        var i :| 0 <= i < k - 1 && nums[..k - 1][i] == v;
        assert nums[..k][i] == nums[..k][k - 1];
      }
    }
  }

  /** A found offence is the pass's verdict on the whole list. */
  lemma {:induction false} CheckedSticky(nums: seq<nat>, k: nat, m: nat)
    requires k <= m <= |nums| && CheckedUpTo(nums, k).Some?
    ensures CheckedUpTo(nums, m) == CheckedUpTo(nums, k)
    decreases m
  {
    if m > k {
      CheckedSticky(nums, k, m - 1);
    }
  }

  /** A failed segment is the verdict on the whole list. */
  lemma {:induction false} SegmentsSticky(segs: seq<string>, k: nat)
    requires k <= |segs| && SegmentNumbers(segs[..k]).Err?
    ensures SegmentNumbers(segs) == SegmentNumbers(segs[..k])
    decreases |segs|
  {
    if k < |segs| {
      var init := segs[..|segs| - 1];
      assert init[..k] == segs[..k];
      SegmentsSticky(init, k);
    } else {
      assert segs[..k] == segs;
    }
  }

  function AsCards(nums: seq<nat>): (d: seq<Card>)
    requires forall i :: 0 <= i < |nums| ==> nums[i] < CARDS_PER_DECK
    ensures |d| == |nums| && forall i :: 0 <= i < |nums| ==> d[i] == nums[i]
  {
    seq(|nums|, i requires 0 <= i < |nums| => nums[i] as Card)
  }

  /** The numbers of the segments strictly between positions `open` and `close`. */
  function NumbersBetween(s: string, open: nat, close: nat): Result<seq<nat>, ParseError>
    requires open < close <= |s|
  {
    SegmentNumbers(Split(s[open + 1..close], ','))
  }

  /** The numbers of the list between the brackets, when the brackets and every segment are good. */
  function ListedNumbers(s: string): Result<seq<nat>, ParseError>
  {
    match Brackets(s)
    case Err(e) => Err(e)
    case Ok(span) => NumbersBetween(s, span.0, span.1)
  }

  /** The count check and the range-and-duplicate pass over the listed numbers. */
  function DeckOfNumbers(nums: seq<nat>): Result<seq<Card>, ParseError>
  {
    if |nums| != CARDS_PER_DECK then Err(WrongCount(|nums|))
    else match CheckedUpTo(nums, |nums|)
      case Some(e) => Err(e)
      case None =>
        CheckedNoneIff(nums, |nums|);
        assert nums[..|nums|] == nums;
        Ok(AsCards(nums))
  }

  /** `parse_bracketed_deck_list`, as a value. */
  function ParseDeckList(s: string): Result<seq<Card>, ParseError>
  {
    match ListedNumbers(s)
    case Err(e) => Err(e)
    case Ok(nums) => DeckOfNumbers(nums)
  }

  /**
   * A list is accepted exactly when its segments are 52 distinct card
   * indices; the deck is then those indices in listed order, and so a
   * permutation of the 52 cards.
   */
  lemma ParseDeckListOk(s: string)
    ensures ParseDeckList(s).Ok? <==>
      ListedNumbers(s).Ok? && |ListedNumbers(s).value| == CARDS_PER_DECK && DistinctIndices(ListedNumbers(s).value)
    ensures ParseDeckList(s).Ok? ==> ParseDeckList(s).value == AsCards(ListedNumbers(s).value)
    ensures ParseDeckList(s).Ok? ==> IsPermutation(ParseDeckList(s).value)
  {
    if ListedNumbers(s).Ok? {
      var nums := ListedNumbers(s).value;
      CheckedNoneIff(nums, |nums|);
      assert nums[..|nums|] == nums;
      if ParseDeckList(s).Ok? {
        var d := ParseDeckList(s).value;
        assert Distinct(d);
        DistinctIsPermutation(d);
      }
    }
  }

  /** `parse_bracketed_deck_list`: the bracket search, the segment loop and the `seen` pass. */
  method ParseBracketedDeckList(s: string) returns (r: Result<seq<Card>, ParseError>)
    ensures r == ParseDeckList(s)
  {
    var listed := ListNumbers(s);
    if listed.Err? {
      return Err(listed.error);
    }
    r := DeckOfListed(listed.value);
  }

  /** The bracket search and the segment loop over what lies between the brackets. */
  method ListNumbers(s: string) returns (r: Result<seq<nat>, ParseError>)
    ensures r == ListedNumbers(s)
  {
    var span := FindBrackets(s);
    if span.Err? {
      return Err(span.error);
    }
    r := CollectBetween(s, span.value.0, span.value.1);
  }

  /** The segment loop over the text strictly between the brackets. */
  method CollectBetween(s: string, open: nat, close: nat) returns (r: Result<seq<nat>, ParseError>)
    requires open < close <= |s|
    ensures r == NumbersBetween(s, open, close)
  {
    r := CollectNumbers(Split(s[open + 1..close], ','));
  }

  /** The bracket search: the first `[`, the last `]`, and the check that they are in order. */
  method FindBrackets(s: string) returns (r: Result<(nat, nat), ParseError>)
    ensures r == Brackets(s)
  {
    var open := FindChar(s, '[');
    if open.None? {
      return Err(MissingOpen);
    }
    var close := RFindChar(s, ']');
    if close.None? {
      return Err(MissingClose);
    }
    if close.value <= open.value {
      return Err(Malformed);
    }
    r := Ok((open.value, close.value));
  }

  /** The count check, the `seen` pass and the copy into the deck. */
  method DeckOfListed(nums: seq<nat>) returns (r: Result<seq<Card>, ParseError>)
    ensures r == DeckOfNumbers(nums)
  {
    if |nums| != CARDS_PER_DECK {
      return Err(WrongCount(|nums|));
    }
    var err := CheckIndices(nums);
    if err.Some? {
      return Err(err.value);
    }
    CheckedNoneIff(nums, |nums|);
    assert nums[..|nums|] == nums;
    var deck := CopyIndices(nums);
    r := Ok(deck);
  }

  /** The segment loop: trim, skip the empty ones, parse the others as `u8` and push. */
  method CollectNumbers(segs: seq<string>) returns (r: Result<seq<nat>, ParseError>)
    ensures r == SegmentNumbers(segs)
  {
    var nums: seq<nat> := [];
    for k := 0 to |segs|
      invariant SegmentNumbers(segs[..k]) == Ok(nums)
    {
      assert segs[..k + 1][..k] == segs[..k];
      var t := Trim(segs[k]);
      if t == [] {
        continue;
      }
      var v := ParseU8(t);
      if v.None? {
        SegmentsSticky(segs, k + 1);
        return Err(NotU8(t));
      }
      nums := nums + [v.value];
    }
    assert segs[..|segs|] == segs;
    r := Ok(nums);
  }

  /** The `seen` pass: a range check and a duplicate check per number, stopping at the first offence. */
  method CheckIndices(nums: seq<nat>) returns (err: Option<ParseError>)
    requires |nums| == CARDS_PER_DECK
    ensures err == CheckedUpTo(nums, |nums|)
  {
    var seen := new bool[CARDS_PER_DECK](_ => false);
    for k := 0 to |nums|
      invariant CheckedUpTo(nums, k) == None
      invariant SeenExactly(seen[..], nums[..k])
    {
      var v := nums[k];
      assert nums[..k + 1][..k] == nums[..k];
      if v >= CARDS_PER_DECK {
        CheckedSticky(nums, k + 1, |nums|);
        return Some(OutOfRange(v));
      }
      if seen[v] {
        CheckedSticky(nums, k + 1, |nums|);
        return Some(Duplicate(v));
      }
      MarkSeen(seen[..], nums[..k], v);
      seen[v] := true;
    }
    return None;
  }

  /** `seen[v]` holds exactly for the numbers met so far. */
  ghost predicate SeenExactly(seen: seq<bool>, met: seq<nat>)
  {
    |seen| == CARDS_PER_DECK && forall v :: 0 <= v < CARDS_PER_DECK ==> (seen[v] <==> v in met)
  }

  lemma MarkSeen(seen: seq<bool>, met: seq<nat>, v: nat)
    requires SeenExactly(seen, met) && v < CARDS_PER_DECK
    ensures SeenExactly(seen[v := true], met + [v])
  {
  }

  /** The copy into the deck array, `deck[i] = Card(v)`. */
  method CopyIndices(nums: seq<nat>) returns (deck: seq<Card>)
    requires forall i :: 0 <= i < |nums| ==> nums[i] < CARDS_PER_DECK
    ensures deck == AsCards(nums)
  {
    var cards := new Card[|nums|];
    for i := 0 to |nums|
      invariant forall j :: 0 <= j < i ==> cards[j] == nums[j]
    {
      cards[i] := nums[i];
    }
    deck := cards[..];
  }

  // ---------------------------------------------------------------------
  // The dump script's format

  /** The numbers in decimal, separated by `", "`, as Python prints a list. */
  function NumbersText(d: seq<Card>): string
  {
    if |d| <= 1 then (if d == [] then [] else NatToString(d[0]))
    else NumbersText(d[..|d| - 1]) + [','] + ([' '] + NatToString(d[|d| - 1]))
  }

  /** `[51, 32, 3, ...]`: the line the dump script writes for a deck. */
  function FormatDeckList(d: seq<Card>): string
  {
    ['['] + NumbersText(d) + [']']
  }

  /** The numbers text has no brackets and only digits, commas and spaces. */
  lemma {:induction false} NumbersTextChars(d: seq<Card>)
    ensures forall k :: 0 <= k < |NumbersText(d)| ==>
      IsAsciiDigit(NumbersText(d)[k]) || NumbersText(d)[k] == ',' || NumbersText(d)[k] == ' '
  {
    if |d| > 1 {
      NumbersTextChars(d[..|d| - 1]);
    }
  }

  /** One more segment holding a numeral adds its number. */
  lemma SegmentNumbersSnoc(segs: seq<string>, t: string, nums: seq<nat>, v: nat)
    requires SegmentNumbers(segs) == Ok(nums) && v < U8_LIMIT && Trim(t) == NatToString(v)
    ensures SegmentNumbers(segs + [t]) == Ok(nums + [v])
  {
    ParseU8RoundTrip(v);
    assert (segs + [t])[..|segs|] == segs;
  }

  /** Split at the commas, the numbers text gives back one numeral per number. */
  lemma {:induction false} NumbersTextSegments(d: seq<Card>)
    requires d != []
    ensures SegmentNumbers(Split(NumbersText(d), ',')) == Ok(d)
  {
    if |d| == 1 {
      SingleNumeralSegments(d);
    } else {
      NumbersTextSegments(d[..|d| - 1]);
      NumbersTextSegmentsSnoc(d);
    }
  }

  lemma SingleNumeralSegments(d: seq<Card>)
    requires |d| == 1
    ensures SegmentNumbers(Split(NumbersText(d), ',')) == Ok(d)
  {
    var last := NatToString(d[0]);
    TrimDigits(last);
    assert NumbersText(d) == last;
    NumeralHasNoComma(d[0]);
    assert ',' !in last by {
      assert forall k :: 0 <= k < |last| ==> last[k] == ([' '] + last)[k + 1];
    }
    assert Split(last, ',') == [] + [last];
    SegmentNumbersSnoc([], last, [], d[0]);
    DropLastAppend(d);
  }

  lemma DropLastAppend(d: seq<Card>)
    requires d != []
    ensures d[..|d| - 1] + [d[|d| - 1]] == d
  {
  }

  lemma NumbersTextSegmentsSnoc(d: seq<Card>)
    requires |d| >= 2
    requires SegmentNumbers(Split(NumbersText(d[..|d| - 1]), ',')) == Ok(d[..|d| - 1])
    ensures SegmentNumbers(Split(NumbersText(d), ',')) == Ok(d)
  {
    NumbersTextSplit(d);
    var n := |d|;
    var last := NatToString(d[n - 1]);
    TrimDigits(last);
    DropLastAppend(d);
    SegmentNumbersSnoc(Split(NumbersText(d[..n - 1]), ','), [' '] + last, d[..n - 1], d[n - 1]);
  }

  lemma NumbersTextSplit(d: seq<Card>)
    requires |d| >= 2
    ensures Split(NumbersText(d), ',') == Split(NumbersText(d[..|d| - 1]), ',') + [[' '] + NatToString(d[|d| - 1])]
  {
    var last := [' '] + NatToString(d[|d| - 1]);
    NumeralHasNoComma(d[|d| - 1]);
    SplitLast(NumbersText(d[..|d| - 1]), ',', last);
  }

  lemma NumeralHasNoComma(v: nat)
    ensures ',' !in [' '] + NatToString(v)
  {
    var last := [' '] + NatToString(v);
    assert forall k :: 0 <= k < |last| ==> last[k] != ',';
  }

  /** The dump line's brackets frame exactly the numbers text. */
  lemma FormatBrackets(d: seq<Card>)
    ensures ListedNumbers(FormatDeckList(d)) == SegmentNumbers(Split(NumbersText(d), ','))
  {
    var f := FormatDeckList(d);
    NumbersTextChars(d);
    assert f[0] == '[' && f[|f| - 1] == ']';
    assert forall k :: 0 <= k < |f| - 1 ==> f[k] != ']';
    assert FindChar(f, '[') == Some(0);
    assert RFindChar(f, ']') == Some(|f| - 1);
    assert f[1..|f| - 1] == NumbersText(d);
  }

  /**
   * The dump script's line for any deck is accepted and gives that deck
   * back, and it passes the character filter of the text scan.
   */
  lemma FormatParseRoundTrip(d: seq<Card>)
    requires IsPermutation(d)
    ensures ParseDeckList(FormatDeckList(d)) == Ok(d)
    ensures DeckCharsOnly(FormatDeckList(d))
  {
    PermutationIsDistinct(d);
    var f := FormatDeckList(d);
    FormatBrackets(d);
    NumbersTextSegments(d);
    ListedDistinct(f, d);
    FormatChars(d);
  }

  /** A list whose numbers are a given deck's, in order, parses to that deck. */
  lemma ListedDistinct(f: string, d: seq<Card>)
    requires ListedNumbers(f) == Ok(d) && |d| == CARDS_PER_DECK && Distinct(d)
    ensures ParseDeckList(f) == Ok(d)
  {
    DeckOfDistinct(d);
  }

  /** 52 distinct cards pass the count check and the `seen` pass unchanged. */
  lemma DeckOfDistinct(d: seq<Card>)
    requires |d| == CARDS_PER_DECK && Distinct(d)
    ensures DeckOfNumbers(d) == Ok(d)
  {
    assert DistinctIndices(d);
    CheckedNoneIff(d, |d|);
    assert d[..|d|] == d;
    assert AsCards(d) == d;
  }

  lemma FormatChars(d: seq<Card>)
    ensures DeckCharsOnly(FormatDeckList(d))
  {
    NumbersTextChars(d);
    DeckCharsFromIff(FormatDeckList(d), 0);
  }

  // ---------------------------------------------------------------------
  // is_deck_chars_only

  /** Digits, commas, ASCII whitespace and brackets. */
  predicate IsDeckChar(c: char)
  {
    IsAsciiDigit(c) || c == ',' || IsAsciiWhitespace(c) || c == '[' || c == ']'
  }

  /** `is_deck_chars_only`. */
  predicate DeckCharsOnly(s: string)
    ensures DeckCharsOnly(s) <==> forall m :: 0 <= m < |s| ==> IsDeckChar(s[m])
  {
    DeckCharsFromIff(s, 0);
    DeckCharsFrom(s, 0)
  }

  /** `chars().all(..)` over the characters from position `k` on, one at a time. */
  predicate DeckCharsFrom(s: string, k: nat)
    requires k <= |s|
    decreases |s| - k
  {
    k == |s| || (IsDeckChar(s[k]) && DeckCharsFrom(s, k + 1))
  }

  /** The check passes exactly when every character from `k` on is a deck character. */
  lemma {:induction false} DeckCharsFromIff(s: string, k: nat)
    requires k <= |s|
    ensures DeckCharsFrom(s, k) <==> forall m :: k <= m < |s| ==> IsDeckChar(s[m])
    decreases |s| - k
  {
    if k < |s| {
      DeckCharsFromIff(s, k + 1);
    }
  }

  // ---------------------------------------------------------------------
  // sniff_label_near

  const KEYWORDS: seq<string> := ["game", "seed"]

  /** The later of the last `game` and the last `seed`. */
  function LastKeyword(lower: string): (r: Option<nat>)
    ensures r.Some? ==> OccursAt(lower, "game", r.value) || OccursAt(lower, "seed", r.value)
    ensures r.Some? ==> forall k: nat :: r.value < k ==> !OccursAt(lower, "game", k) && !OccursAt(lower, "seed", k)
    ensures r.None? <==> forall k: nat :: !OccursAt(lower, "game", k) && !OccursAt(lower, "seed", k)
  {
    match RFindSub(lower, "game")
    case None => RFindSub(lower, "seed")
    case Some(g) =>
      match RFindSub(lower, "seed")
      case None => Some(g)
      case Some(sd) => Some(if g < sd then sd else g)
  }

  /** The first ASCII digit. */
  function FirstDigit(t: string): (r: Option<nat>)
    ensures r.Some? ==> r.value < |t| && IsAsciiDigit(t[r.value]) && forall k :: 0 <= k < r.value ==> !IsAsciiDigit(t[k])
    ensures r.None? ==> forall k :: 0 <= k < |t| ==> !IsAsciiDigit(t[k])
  {
    if t == [] then None
    else if IsAsciiDigit(t[0]) then Some(0)
    else match FirstDigit(t[1..])
      case None => None
      case Some(i) => Some(i + 1)
  }

  /** Where the run of digits going on at `i` stops. */
  function DigitRunEnd(t: string, i: nat): (e: nat)
    requires i <= |t|
    ensures i <= e <= |t| && (forall k :: i <= k < e ==> IsAsciiDigit(t[k])) && (e < |t| ==> !IsAsciiDigit(t[e]))
    decreases |t| - i
  {
    if i < |t| && IsAsciiDigit(t[i]) then DigitRunEnd(t, i + 1) else i
  }

  /** `sniff_label_near`, as a value: the first run of digits from the last keyword on. */
  function SniffLabel(text: string): (r: Option<string>)
    ensures r.Some? ==> r.value != [] && IsAsciiDigit(r.value[0])
  {
    match LastKeyword(AsciiLower(text))
    case None => None
    case Some(p) =>
      var tail := text[p..];
      match FirstDigit(tail)
      case None => None
      case Some(st) => Some(tail[st..DigitRunEnd(tail, st + 1)])
  }

  /** A sniffed label is a nonempty string of digits, so it never holds the fallback's `#`. */
  lemma SniffedIsDigits(text: string)
    ensures SniffLabel(text).Some? ==> SniffLabel(text).value != [] && AllDigits(SniffLabel(text).value)
  {
    var lower := AsciiLower(text);
    if LastKeyword(lower).Some? {
      var tail := text[LastKeyword(lower).value..];
      if FirstDigit(tail).Some? {
        var st := FirstDigit(tail).value;
        var e := DigitRunEnd(tail, st + 1);
        DigitRunIsDigits(tail, st, e);
      }
    }
  }

  lemma DigitRunIsDigits(tail: string, st: nat, e: nat)
    requires st < |tail| && IsAsciiDigit(tail[st]) && e == DigitRunEnd(tail, st + 1)
    ensures tail[st..e] != [] && AllDigits(tail[st..e])
  {
    assert forall k :: 0 <= k < e - st ==> tail[st..e][k] == tail[st + k];
  }

  /** Text without either keyword gives no label, so the fallback is used. */
  lemma SniffWithoutKeyword(text: string)
    requires forall k: nat :: !OccursAt(AsciiLower(text), "game", k) && !OccursAt(AsciiLower(text), "seed", k)
    ensures SniffLabel(text) == None
  {
  }

  /** `sniff_label_near`: the keyword loop, then the scan for the first run of digits. */
  method SniffLabelNear(text: string) returns (r: Option<string>)
    ensures r == SniffLabel(text)
  {
    var bestPos := FindLastKeyword(AsciiLower(text));
    if bestPos.None? {
      return None;
    }
    var tail := text[bestPos.value..];
    var run := ScanDigitRun(tail);
    if run.None? {
      return None;
    }
    r := Some(tail[run.value.0..run.value.1]);
  }

  /** The loop over the two keywords, keeping the larger `rfind` position. */
  method FindLastKeyword(lower: string) returns (bestPos: Option<nat>)
    ensures bestPos == LastKeyword(lower)
  {
    bestPos := None;
    for q := 0 to |KEYWORDS|
      invariant bestPos == (if q == 0 then None else if q == 1 then RFindSub(lower, "game") else LastKeyword(lower))
    {
      var p := RFindSub(lower, KEYWORDS[q]);
      if p.Some? {
        bestPos := Some(if bestPos.Some? && bestPos.value > p.value then bestPos.value else p.value);
      }
    }
  }

  /** The `char_indices` scan: the first digit starts the run, the first non-digit after it ends it. */
  method ScanDigitRun(tail: string) returns (run: Option<(nat, nat)>)
    ensures run.None? <==> FirstDigit(tail).None?
    ensures run.Some? ==> run.value == (FirstDigit(tail).value, DigitRunEnd(tail, FirstDigit(tail).value + 1))
  {
    var runStart: Option<nat> := None;
    var runEnd: nat := 0;
    for i := 0 to |tail|
      invariant runStart.None? ==> forall k :: 0 <= k < i ==> !IsAsciiDigit(tail[k])
      invariant runStart.Some? ==> FirstDigit(tail) == runStart && runStart.value < i && runEnd == i
      invariant runStart.Some? ==> DigitRunEnd(tail, runStart.value + 1) == DigitRunEnd(tail, i)
    {
      if IsAsciiDigit(tail[i]) {
        if runStart.None? {
          runStart := Some(i);
        }
        runEnd := i + 1;
      } else if runStart.Some? {
        break;
      }
    }
    if runStart.None? {
      return None;
    }
    run := Some((runStart.value, runEnd));
  }

  /** The comments' example: a line `Seed: <n>` gives the label `<n>`. */
  lemma SniffSeedLine(n: nat)
    ensures SniffLabel("Seed: " + NatToString(n)) == Some(NatToString(n))
  {
    var digits := NatToString(n);
    var text := "Seed: " + digits;
    SeedLineKeyword(n);
    SeedLineDigits(n);
    assert text[0..] == text;
    assert text[6..|text|] == digits by {
      assert |text| == 6 + |digits|;
      forall k | 0 <= k < |digits| ensures text[6..|text|][k] == digits[k] {
        assert text[6 + k] == digits[k];
      }
    }
  }

  lemma SeedLineKeyword(n: nat)
    ensures LastKeyword(AsciiLower("Seed: " + NatToString(n))) == Some(0)
  {
    var ds := NatToString(n);
    SeedLineLower(ds);
    SeedKeywordOnlyAtStart("seed: " + ds);
  }

  /** Lower-casing `Seed: <digits>` only touches the `S`. */
  lemma SeedLineLower(ds: string)
    requires AllDigits(ds)
    ensures AsciiLower("Seed: " + ds) == "seed: " + ds
  {
    var text := "Seed: " + ds;
    var lower := AsciiLower(text);
    assert forall k :: 6 <= k < |text| ==> text[k] == ds[k - 6];
  }

  /** A text whose only `s` is its first letter and which has no `g` has its last keyword at 0. */
  lemma SeedKeywordOnlyAtStart(lower: string)
    requires |lower| >= 4 && lower[..4] == "seed"
    requires forall k :: 0 <= k < |lower| ==> lower[k] != 'g' && (k > 0 ==> lower[k] != 's')
    ensures LastKeyword(lower) == Some(0)
  {
    assert OccursAt(lower, "seed", 0);
    forall k: nat ensures !OccursAt(lower, "game", k) && (k > 0 ==> !OccursAt(lower, "seed", k)) {
      if k + 4 <= |lower| {
        assert lower[k..k + 4][0] == lower[k];
      }
    }
  }

  lemma SeedLineDigits(n: nat)
    ensures FirstDigit("Seed: " + NatToString(n)) == Some(6)
    ensures DigitRunEnd("Seed: " + NatToString(n), 7) == |"Seed: " + NatToString(n)|
  {
    var text := "Seed: " + NatToString(n);
    assert text[6] == NatToString(n)[0];
    assert forall k :: 6 <= k < |text| ==> text[k] == NatToString(n)[k - 6];
    assert forall k :: 0 <= k < 6 ==> !IsAsciiDigit(text[k]);
    DigitsRunToEnd(text, 7);
  }

  lemma {:induction false} DigitsRunToEnd(t: string, i: nat)
    requires i <= |t| && forall k :: i <= k < |t| ==> IsAsciiDigit(t[k])
    ensures DigitRunEnd(t, i) == |t|
    decreases |t| - i
  {
    if i < |t| {
      DigitsRunToEnd(t, i + 1);
    }
  }

  // ---------------------------------------------------------------------
  // extract_decks_from_text

  /** `DeckSpec`: a deck with the label (`name`) it is reported under. */
  datatype DeckSpec = DeckSpec(name: string, deck: seq<Card>)

  /** How far back from a `[` the label is looked for. */
  const LOOKBACK: nat := 512

  /** The first `]` at or after `j`, or the end of the text. */
  function NextClose(text: string, j: nat): (r: nat)
    requires j <= |text|
    ensures j <= r <= |text| && (r < |text| ==> text[r] == ']') && forall k :: j <= k < r ==> text[k] != ']'
    decreases |text| - j
  {
    if j < |text| && text[j] != ']' then NextClose(text, j + 1) else j
  }

  /** The label used when none is found nearby: `default#k`. */
  function FallbackLabel(defaultLabel: string, k: nat): (r: string)
    ensures '#' in r
  {
    assert (defaultLabel + ['#'] + NatToString(k))[|defaultLabel|] == '#';
    defaultLabel + ['#'] + NatToString(k)
  }

  /** The text before position `i` that the label is sniffed from. */
  function Nearby(text: string, i: nat): string
    requires i <= |text|
  {
    text[(if i >= LOOKBACK then i - LOOKBACK else 0)..i]
  }

  /** The filter and the parse of one candidate span: its deck, if it passes both. */
  function CandidateDeckOf(candidate: string): Option<seq<Card>>
  {
    if DeckCharsOnly(candidate) && ParseDeckList(candidate).Ok? then Some(ParseDeckList(candidate).value) else None
  }

  /**
   * How a scan treats what it finds: `deckOf` makes a deck, or nothing, of
   * a candidate span, and `sniff` looks for a label in the text before it.
   */
  datatype Reader = Reader(deckOf: string -> Option<seq<Card>>, sniff: string -> Option<string>)

  /** What `extract_decks_from_text` does: the filter and parse, and `sniff_label_near`. */
  const PYSOL_READER: Reader := Reader(CandidateDeckOf, SniffLabel)

  /** The label for a deck, given what was sniffed, and the fallback counter after it. */
  function LabelOf(defaultLabel: string, sniffed: Option<string>, deckIndex: nat): (r: (string, nat))
    ensures sniffed.Some? ==> r == (sniffed.value, deckIndex)
    ensures sniffed.None? ==> r == (FallbackLabel(defaultLabel, deckIndex + 1), deckIndex + 1)
  {
    match sniffed
    case Some(name) => (name, deckIndex)
    case None => (FallbackLabel(defaultLabel, deckIndex + 1), deckIndex + 1)
  }

  /**
   * The scan of `extract_decks_from_text` from position `i`, with
   * `deckIndex` fallback labels already handed out: each `[` with a `]`
   * after it opens a candidate span up to the first such `]`, and the scan
   * goes on after that `]` whether or not the span yields a deck.
   */
  function ScanDecks(text: string, defaultLabel: string, rd: Reader, i: nat, deckIndex: nat): seq<DeckSpec>
    requires i <= |text|
    decreases |text| - i
  {
    if i == |text| then []
    else if text[i] != '[' then ScanDecks(text, defaultLabel, rd, i + 1, deckIndex)
    else
      var j := NextClose(text, i + 1);
      if j == |text| then []
      else match rd.deckOf(text[i..j + 1])
        case None => ScanDecks(text, defaultLabel, rd, j + 1, deckIndex)
        case Some(deck) =>
          var (name, next) := LabelOf(defaultLabel, rd.sniff(Nearby(text, i)), deckIndex);
          [DeckSpec(name, deck)] + ScanDecks(text, defaultLabel, rd, j + 1, next)
  }

  /** `extract_decks_from_text`, as a value, from position `i` on. */
  function ExtractFrom(text: string, defaultLabel: string, i: nat, deckIndex: nat): seq<DeckSpec>
    requires i <= |text|
  {
    ScanDecks(text, defaultLabel, PYSOL_READER, i, deckIndex)
  }

  /** `extract_decks_from_text`: the byte scan for `[`, the search for `]`, and the pushes. */
  method ExtractDecksFromText(text: string, defaultLabel: string) returns (out: seq<DeckSpec>)
    ensures out == ExtractFrom(text, defaultLabel, 0, 0)
  {
    var i := 0;
    var deckIndex := 0;
    out := [];
    while i < |text|
      invariant i <= |text| && Scanned(text, defaultLabel, out, i, deckIndex)
      decreases |text| - i
    {
      if text[i] != '[' {
        ScanSkip(text, defaultLabel, out, i, deckIndex);
        i := i + 1;
        continue;
      }
      var j := FindClose(text, i + 1);
      if j >= |text| {
        ScanStop(text, defaultLabel, out, i, deckIndex);
        return;
      }
      var found, next := ExtractCandidate(text, defaultLabel, i, j, deckIndex);
      ScanFound(text, defaultLabel, out, i, deckIndex, found, j, next);
      out, deckIndex := out + found, next;
      i := j + 1;
    }
    assert out + [] == out;
  }

  /** The inner `while`: the next `]` from `j0` on. */
  method FindClose(text: string, j0: nat) returns (j: nat)
    requires j0 <= |text|
    ensures j == NextClose(text, j0)
  {
    j := j0;
    while j < |text| && text[j] != ']'
      invariant j0 <= j <= |text| && NextClose(text, j) == NextClose(text, j0)
      decreases |text| - j
    {
      j := j + 1;
    }
  }

  /** The decks found so far, followed by those the rest of the text yields, are all of them. */
  ghost predicate Scanned(text: string, defaultLabel: string, out: seq<DeckSpec>, i: nat, deckIndex: nat)
  {
    i <= |text| && out + ExtractFrom(text, defaultLabel, i, deckIndex) == ExtractFrom(text, defaultLabel, 0, 0)
  }

  lemma ScanSkip(text: string, defaultLabel: string, out: seq<DeckSpec>, i: nat, deckIndex: nat)
    requires Scanned(text, defaultLabel, out, i, deckIndex) && i < |text| && text[i] != '['
    ensures Scanned(text, defaultLabel, out, i + 1, deckIndex)
  {
  }

  lemma ScanStop(text: string, defaultLabel: string, out: seq<DeckSpec>, i: nat, deckIndex: nat)
    requires Scanned(text, defaultLabel, out, i, deckIndex) && i < |text| && text[i] == '['
    requires NextClose(text, i + 1) == |text|
    ensures out == ExtractFrom(text, defaultLabel, 0, 0)
  {
    assert out + [] == out;
  }

  lemma ScanFound(text: string, defaultLabel: string, out: seq<DeckSpec>, i: nat, deckIndex: nat,
                  found: seq<DeckSpec>, j: nat, next: nat)
    requires Scanned(text, defaultLabel, out, i, deckIndex) && j < |text|
    requires found + ExtractFrom(text, defaultLabel, j + 1, next) == ExtractFrom(text, defaultLabel, i, deckIndex)
    ensures Scanned(text, defaultLabel, out + found, j + 1, next)
  {
    assert out + found + ExtractFrom(text, defaultLabel, j + 1, next) == out + (found + ExtractFrom(text, defaultLabel, j + 1, next));
  }

  /** The body for one `[...]` span: filter, parse, label, and at most one push. */
  method ExtractCandidate(text: string, defaultLabel: string, i: nat, j: nat, deckIndex: nat)
    returns (found: seq<DeckSpec>, next: nat)
    requires SpanAt(text, i, j)
    ensures found + ExtractFrom(text, defaultLabel, j + 1, next) == ExtractFrom(text, defaultLabel, i, deckIndex)
  {
    ScanAtOpen(text, defaultLabel, PYSOL_READER, i, j, deckIndex);
    var deck := CandidateDeck(text[i..j + 1]);
    if deck.None? {
      return [], deckIndex;
    }
    var sniffed := SniffLabelNear(Nearby(text, i));
    var name;
    next := deckIndex;
    if sniffed.Some? {
      name := sniffed.value;
    } else {
      next := next + 1;
      name := FallbackLabel(defaultLabel, next);
    }
    assert (name, next) == LabelOf(defaultLabel, PYSOL_READER.sniff(Nearby(text, i)), deckIndex);
    found := [DeckSpec(name, deck.value)];
  }

  /** The filter and the parse of one span. */
  method CandidateDeck(candidate: string) returns (deck: Option<seq<Card>>)
    ensures deck == CandidateDeckOf(candidate)
  {
    if !DeckCharsOnly(candidate) {
      return None;
    }
    var parsed := ParseBracketedDeckList(candidate);
    if parsed.Err? {
      return None;
    }
    deck := Some(parsed.value);
  }

  // Properties of the scan

  /** `text[i..=j]` runs from a `[` to the first `]` after it. */
  predicate SpanAt(text: string, i: nat, j: nat)
  {
    i < j < |text| && text[i] == '[' && j == NextClose(text, i + 1)
  }

  /** The scan at a `[` whose span is closed: the treatment of that span decides. */
  lemma ScanAtOpen(text: string, defaultLabel: string, rd: Reader, i: nat, j: nat, deckIndex: nat)
    requires SpanAt(text, i, j)
    ensures rd.deckOf(text[i..j + 1]).None? ==>
      ScanDecks(text, defaultLabel, rd, i, deckIndex) == ScanDecks(text, defaultLabel, rd, j + 1, deckIndex)
    ensures rd.deckOf(text[i..j + 1]).Some? ==>
      var (name, next) := LabelOf(defaultLabel, rd.sniff(Nearby(text, i)), deckIndex);
      ScanDecks(text, defaultLabel, rd, i, deckIndex)
      == [DeckSpec(name, rd.deckOf(text[i..j + 1]).value)] + ScanDecks(text, defaultLabel, rd, j + 1, next)
  {
  }

  /** `deck` is what the reader made of some closed span at or after `i`. */
  ghost predicate FromSpan(text: string, rd: Reader, i: nat, deck: seq<Card>)
  {
    exists i0: nat, j0: nat :: i <= i0 && SpanAt(text, i0, j0) && rd.deckOf(text[i0..j0 + 1]) == Some(deck)
  }

  ghost predicate AllFromSpans(text: string, rd: Reader, i: nat, out: seq<DeckSpec>)
  {
    forall k :: 0 <= k < |out| ==> FromSpan(text, rd, i, out[k].deck)
  }

  lemma AllFromSpansCons(text: string, rd: Reader, i: nat, i1: nat, x: DeckSpec, rest: seq<DeckSpec>)
    requires i <= i1 && FromSpan(text, rd, i, x.deck) && AllFromSpans(text, rd, i1, rest)
    ensures AllFromSpans(text, rd, i, [x] + rest)
  {
    var all := [x] + rest;
    forall k | 0 <= k < |all| ensures FromSpan(text, rd, i, all[k].deck) {
      if k > 0 {
        assert all[k] == rest[k - 1];
        var i0: nat, j0: nat :| i1 <= i0 && SpanAt(text, i0, j0) && rd.deckOf(text[i0..j0 + 1]) == Some(rest[k - 1].deck);
      }
    }
  }

  lemma AllFromSpansLater(text: string, rd: Reader, i: nat, i1: nat, out: seq<DeckSpec>)
    requires i <= i1 && AllFromSpans(text, rd, i1, out)
    ensures AllFromSpans(text, rd, i, out)
  {
    forall k | 0 <= k < |out| ensures FromSpan(text, rd, i, out[k].deck) {
      var i0: nat, j0: nat :| i1 <= i0 && SpanAt(text, i0, j0) && rd.deckOf(text[i0..j0 + 1]) == Some(out[k].deck);
    }
  }

  /** Every deck the scan reports is what the reader made of a closed span of the text from `i` on. */
  lemma {:induction false} ScanFromSpans(text: string, defaultLabel: string, rd: Reader, i: nat, deckIndex: nat)
    requires i <= |text|
    ensures AllFromSpans(text, rd, i, ScanDecks(text, defaultLabel, rd, i, deckIndex))
    decreases |text| - i
  {
    if i < |text| {
      if text[i] != '[' {
        ScanFromSpans(text, defaultLabel, rd, i + 1, deckIndex);
        AllFromSpansLater(text, rd, i, i + 1, ScanDecks(text, defaultLabel, rd, i + 1, deckIndex));
      } else {
        var j := NextClose(text, i + 1);
        if j < |text| {
          ScanAtOpen(text, defaultLabel, rd, i, j, deckIndex);
          match rd.deckOf(text[i..j + 1])
          case None =>
            ScanFromSpans(text, defaultLabel, rd, j + 1, deckIndex);
            AllFromSpansLater(text, rd, i, j + 1, ScanDecks(text, defaultLabel, rd, j + 1, deckIndex));
          case Some(deck) =>
            var (name, next) := LabelOf(defaultLabel, rd.sniff(Nearby(text, i)), deckIndex);
            ScanFromSpans(text, defaultLabel, rd, j + 1, next);
            assert SpanAt(text, i, j) && rd.deckOf(text[i..j + 1]) == Some(deck);
            assert FromSpan(text, rd, i, deck);
            AllFromSpansCons(text, rd, i, j + 1, DeckSpec(name, deck), ScanDecks(text, defaultLabel, rd, j + 1, next));
        }
      }
    }
  }

  /** The reader only ever makes permutations of the 52 cards. */
  ghost predicate ReadsPermutations(rd: Reader)
  {
    forall c :: rd.deckOf(c).Some? ==> IsPermutation(rd.deckOf(c).value)
  }

  /** A candidate that passes the filter and the parse is a permutation of the 52 cards. */
  lemma CandidatePermutation(candidate: string)
    requires CandidateDeckOf(candidate).Some?
    ensures IsPermutation(CandidateDeckOf(candidate).value)
  {
    ParseDeckListOk(candidate);
  }

  lemma PysolReadsPermutations()
    ensures ReadsPermutations(PYSOL_READER)
  {
    forall c | CandidateDeckOf(c).Some? ensures IsPermutation(CandidateDeckOf(c).value) {
      CandidatePermutation(c);
    }
  }

  /**
   * Every deck `extract_decks_from_text` reports is a permutation of the 52
   * cards, and was read from a span of the text from a `[` to the first `]`
   * after it that passed the character filter and parsed.
   */
  lemma ExtractSound(text: string, defaultLabel: string)
    ensures var out := ExtractFrom(text, defaultLabel, 0, 0);
      forall k :: 0 <= k < |out| ==> IsPermutation(out[k].deck) && FromSpan(text, PYSOL_READER, 0, out[k].deck)
  {
    ScanFromSpans(text, defaultLabel, PYSOL_READER, 0, 0);
    PysolReadsPermutations();
    ReadSpansSound(text, PYSOL_READER, ExtractFrom(text, defaultLabel, 0, 0));
  }

  lemma ReadSpansSound(text: string, rd: Reader, out: seq<DeckSpec>)
    requires ReadsPermutations(rd) && AllFromSpans(text, rd, 0, out)
    ensures forall k :: 0 <= k < |out| ==> IsPermutation(out[k].deck) && FromSpan(text, rd, 0, out[k].deck)
  {
    forall k | 0 <= k < |out| ensures IsPermutation(out[k].deck) {
      assert FromSpan(text, rd, 0, out[k].deck);
      var i0: nat, j0: nat :| SpanAt(text, i0, j0) && rd.deckOf(text[i0..j0 + 1]) == Some(out[k].deck);
    }
  }

  /** The labels of the decks that got the fallback, in order. */
  function Fallbacks(out: seq<DeckSpec>): (r: seq<string>)
    ensures |r| <= |out|
  {
    if out == [] then []
    else (if '#' in out[0].name then [out[0].name] else []) + Fallbacks(out[1..])
  }

  /** `default#(from+1)`, `default#(from+2)`, ... */
  function FallbackRun(defaultLabel: string, from: nat, m: nat): (r: seq<string>)
    ensures |r| == m && forall k :: 0 <= k < m ==> r[k] == FallbackLabel(defaultLabel, from + k + 1)
  {
    seq(m, k requires 0 <= k < m => FallbackLabel(defaultLabel, from + k + 1))
  }

  /** The reader's sniffed labels never contain `#`. */
  ghost predicate SniffsWithoutHash(rd: Reader)
  {
    forall t :: rd.sniff(t).Some? ==> '#' !in rd.sniff(t).value
  }

  /** One more deck in front keeps the fallback labels numbered in order. */
  lemma FallbackCons(x: DeckSpec, rest: seq<DeckSpec>, defaultLabel: string, deckIndex: nat, next: nat)
    requires (next == deckIndex && '#' !in x.name) || (next == deckIndex + 1 && x.name == FallbackLabel(defaultLabel, next))
    requires Fallbacks(rest) == FallbackRun(defaultLabel, next, |Fallbacks(rest)|)
    ensures Fallbacks([x] + rest) == FallbackRun(defaultLabel, deckIndex, |Fallbacks([x] + rest)|)
  {
    FallbacksCons(x, rest);
    if next == deckIndex + 1 && x.name == FallbackLabel(defaultLabel, next) {
      FallbackRunCons(defaultLabel, deckIndex, |Fallbacks(rest)|);
    }
  }

  lemma FallbacksCons(x: DeckSpec, rest: seq<DeckSpec>)
    ensures Fallbacks([x] + rest) == (if '#' in x.name then [x.name] else []) + Fallbacks(rest)
  {
    assert ([x] + rest)[1..] == rest;
  }

  lemma FallbackRunCons(defaultLabel: string, from: nat, m: nat)
    ensures [FallbackLabel(defaultLabel, from + 1)] + FallbackRun(defaultLabel, from + 1, m) == FallbackRun(defaultLabel, from, m + 1)
  {
  }

  /** The fallback labels of a scan from `i` are numbered on from `deckIndex`. */
  lemma {:induction false} ScanFallbacks(text: string, defaultLabel: string, rd: Reader, i: nat, deckIndex: nat)
    requires i <= |text| && SniffsWithoutHash(rd)
    ensures var fs := Fallbacks(ScanDecks(text, defaultLabel, rd, i, deckIndex));
      fs == FallbackRun(defaultLabel, deckIndex, |fs|)
    decreases |text| - i
  {
    if i < |text| {
      if text[i] != '[' {
        ScanFallbacks(text, defaultLabel, rd, i + 1, deckIndex);
      } else {
        var j := NextClose(text, i + 1);
        if j < |text| {
          ScanAtOpen(text, defaultLabel, rd, i, j, deckIndex);
          match rd.deckOf(text[i..j + 1])
          case None =>
            ScanFallbacks(text, defaultLabel, rd, j + 1, deckIndex);
          case Some(deck) =>
            var sniffed := rd.sniff(Nearby(text, i));
            var (name, next) := LabelOf(defaultLabel, sniffed, deckIndex);
            ScanFallbacks(text, defaultLabel, rd, j + 1, next);
            FallbackCons(DeckSpec(name, deck), ScanDecks(text, defaultLabel, rd, j + 1, next), defaultLabel, deckIndex, next);
        }
      }
    }
  }

  /** A sniffed label is a run of digits, so it has no `#`. */
  lemma SniffLabelWithoutHash()
    ensures SniffsWithoutHash(PYSOL_READER)
  {
    forall t | SniffLabel(t).Some? ensures '#' !in SniffLabel(t).value {
      SniffedIsDigits(t);
      var name := SniffLabel(t).value;
      assert forall k :: 0 <= k < |name| ==> IsAsciiDigit(name[k]);
    }
  }

  /**
   * The fallback counter advances only for decks without a sniffed label,
   * which are numbered `default#1`, `default#2`, ... in text order.
   */
  lemma FallbackNumbering(text: string, defaultLabel: string)
    ensures var fs := Fallbacks(ExtractFrom(text, defaultLabel, 0, 0));
      fs == FallbackRun(defaultLabel, 0, |fs|)
  {
    SniffLabelWithoutHash();
    ScanFallbacks(text, defaultLabel, PYSOL_READER, 0, 0);
  }

  /** A text that is just the dump line of a deck yields that deck once, under `default#1`. */
  lemma ExtractDumpLine(d: seq<Card>, defaultLabel: string)
    requires IsPermutation(d)
    ensures ExtractFrom(FormatDeckList(d), defaultLabel, 0, 0) == [DeckSpec(FallbackLabel(defaultLabel, 1), d)]
  {
    var f := FormatDeckList(d);
    DumpLineSpan(d);
    assert Nearby(f, 0) == [];
    SniffWithoutKeyword([]);
    ScanAtOpen(f, defaultLabel, PYSOL_READER, 0, |f| - 1, 0);
    assert ScanDecks(f, defaultLabel, PYSOL_READER, |f|, 1) == [];
  }

  /** The dump line is one closed span that passes the filter and parses to the deck. */
  lemma DumpLineSpan(d: seq<Card>)
    requires IsPermutation(d)
    ensures SpanAt(FormatDeckList(d), 0, |FormatDeckList(d)| - 1)
    ensures CandidateDeckOf(FormatDeckList(d)[0..|FormatDeckList(d)|]) == Some(d)
  {
    DumpLineClosed(d);
    DumpLineCandidate(d);
  }

  /** The dump line's first `]` after its `[` is its last character. */
  lemma DumpLineClosed(d: seq<Card>)
    ensures SpanAt(FormatDeckList(d), 0, |FormatDeckList(d)| - 1)
  {
    var f := FormatDeckList(d);
    NumbersTextChars(d);
    assert f[0] == '[' && f[|f| - 1] == ']';
    assert forall k :: 1 <= k < |f| - 1 ==> f[k] != ']';
  }

  /** The whole dump line passes the filter and parses to the deck. */
  lemma DumpLineCandidate(d: seq<Card>)
    requires IsPermutation(d)
    ensures CandidateDeckOf(FormatDeckList(d)[0..|FormatDeckList(d)|]) == Some(d)
  {
    var f := FormatDeckList(d);
    assert f[0..|f|] == f;
    FormatParseRoundTrip(d);
  }
}
