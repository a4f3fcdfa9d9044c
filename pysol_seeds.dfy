/**
 * The seed side of the PySol importer: the seed normaliser, PySol's card
 * numbering mapped onto the engine's, the integer-only `LCRandom31`
 * generator with the Fisher-Yates shuffle it drives, and the deals it
 * produces.
 */
module PysolSeeds {
  import opened Wrappers
  import opened Cards
  import opened PysolText
  import PysolDecks

  // ---------------------------------------------------------------------
  // normalize_pysol_seed_str

  /** `PysolSeed`: an `ms` seed (a `u64`) or a plain non-negative integer of any size. */
  datatype PysolSeed = Ms(n: nat) | Num(n: nat)

  /** The failures of normalising a seed and of seeding the generator. */
  datatype SeedError =
    | EmptySeed               // "empty seed"
    | InvalidMsSeed           // "invalid ms seed .."
    | MsSeedTooLarge          // "could not parse ms seed .." (the digits overflow a u64)
    | NonDigits(cleaned: string)  // "seed contains non-digits after normalization: .."
    | MsSeedOutOfRange        // "ms seed out of range"

  /** `as_display_str`. */
  function SeedDisplay(seed: PysolSeed): (r: string)
    ensures seed.Num? ==> AllDigits(r)
    ensures seed.Ms? ==> |r| > 2 && r[..2] == "ms" && AllDigits(r[2..])
  {
    match seed
    case Ms(n) => assert ("ms" + NatToString(n))[2..] == NatToString(n); "ms" + NatToString(n)
    case Num(n) => NatToString(n)
  }

  /** The characters the normaliser removes: White_Space and `# - _ . ,`. */
  predicate IsSeedSeparator(c: char)
  {
    IsWhitespace(c) || c == '#' || c == '-' || c == '_' || c == '.' || c == ','
  }

  /** One trailing uppercase `L` (a Python 2 long literal) is dropped. */
  function DropTrailingL(t: string): (r: string)
    ensures r == t || r + ['L'] == t
    ensures r + ['L'] == t <==> t != [] && t[|t| - 1] == 'L'
  {
    if t != [] && t[|t| - 1] == 'L' then t[..|t| - 1] else t
  }

  /** What the cleaning loop pushes for one character: its lower case, unless that is a separator. */
  function CleanChar(c: char): (r: string)
    ensures IsSeedSeparator(ToAsciiLower(c)) ==> r == []
    ensures !IsSeedSeparator(ToAsciiLower(c)) ==> r == [ToAsciiLower(c)]
  {
    var l := ToAsciiLower(c);
    if IsSeedSeparator(l) then [] else [l]
  }

  /** A string the cleaning leaves alone: no separator and no ASCII capital. */
  predicate IsClean(s: string)
  {
    forall k :: 0 <= k < |s| ==> !IsSeedSeparator(s[k]) && !('A' <= s[k] <= 'Z')
  }

  /** The cleaning loop over `t`: lower-cased, separators removed. */
  function CleanSeed(t: string): (r: string)
    ensures |r| <= |t|
  {
    if t == [] then [] else CleanSeed(t[..|t| - 1]) + CleanChar(t[|t| - 1])
  }

  /** The cleaning leaves no separator and no ASCII capital. */
  lemma {:induction false} CleanSeedIsClean(t: string)
    ensures IsClean(CleanSeed(t))
  {
    if t != [] {
      CleanSeedIsClean(t[..|t| - 1]);
    }
  }

  /** The normalised text of a seed: trimmed, one trailing `L` dropped, cleaned. */
  function Cleaned(s: string): string
  {
    CleanSeed(DropTrailingL(Trim(s)))
  }

  /**
   * What the normaliser makes of the cleaned text: nothing left is an
   * error; `ms` and digits of a `u64` is an `ms` seed; digits alone are a
   * plain seed; anything else is an error carrying the cleaned text.
   */
  function ClassifySeed(c: string): Result<PysolSeed, SeedError>
  {
    if c == [] then Err(EmptySeed)
    else if |c| >= 2 && c[..2] == "ms" then
      var rest := c[2..];
      if rest == [] || !AllDigits(rest) then Err(InvalidMsSeed)
      else if DigitsValue(rest) >= U64_LIMIT then Err(MsSeedTooLarge)
      else Ok(Ms(DigitsValue(rest)))
    else if !AllDigits(c) then Err(NonDigits(c))
    else Ok(Num(DigitsValue(c)))
  }

  /** `normalize_pysol_seed_str`, as a value. */
  function NormalizeSeed(s: string): Result<PysolSeed, SeedError>
  {
    ClassifySeed(Cleaned(s))
  }

  /** `normalize_pysol_seed_str`: trim, drop the `L`, the cleaning loop, then the `ms` and plain cases. */
  method NormalizePysolSeedStr(s: string) returns (r: Result<PysolSeed, SeedError>)
    ensures r == NormalizeSeed(s)
  {
    var t := Trim(s);
    if |t| > 0 && t[|t| - 1] == 'L' {
      t := t[..|t| - 1];
    }
    assert t == DropTrailingL(Trim(s));
    var cleaned := CleanSeedChars(t);
    if cleaned == [] {
      return Err(EmptySeed);
    }
    if |cleaned| >= 2 && cleaned[..2] == "ms" {
      var rest := cleaned[2..];
      if rest == [] || !AllDigits(rest) {
        return Err(InvalidMsSeed);
      }
      if DigitsValue(rest) >= U64_LIMIT {
        return Err(MsSeedTooLarge);
      }
      return Ok(Ms(DigitsValue(rest)));
    }
    if !AllDigits(cleaned) {
      return Err(NonDigits(cleaned));
    }
    r := Ok(Num(DigitsValue(cleaned)));
  }

  /** The cleaning loop of `normalize_pysol_seed_str`: lower-case each character and skip the separators. */
  method CleanSeedChars(t: string) returns (cleaned: string)
    ensures cleaned == CleanSeed(t)
  {
    cleaned := [];
    for k := 0 to |t|
      invariant cleaned == CleanSeed(t[..k])
    {
      assert t[..k + 1][..k] == t[..k];
      assert CleanSeed(t[..k + 1]) == cleaned + CleanChar(t[k]);
      var ch := ToAsciiLower(t[k]);
      if IsSeedSeparator(ch) {
        continue;
      }
      cleaned := cleaned + [ch];
    }
    assert t[..|t|] == t;
  }

  /** Each outcome of the normaliser, both ways, in terms of the cleaned text. */
  lemma ClassifySeedCases(c: string)
    ensures && (ClassifySeed(c) == Err(EmptySeed) <==> c == [])
      && (ClassifySeed(c).Ok? && ClassifySeed(c).value.Num? <==> c != [] && AllDigits(c))
      && (ClassifySeed(c).Ok? && ClassifySeed(c).value.Num? ==> ClassifySeed(c).value.n == DigitsValue(c))
      && (ClassifySeed(c).Ok? && ClassifySeed(c).value.Ms? <==>
            |c| > 2 && c[..2] == "ms" && AllDigits(c[2..]) && DigitsValue(c[2..]) < U64_LIMIT)
      && (ClassifySeed(c).Ok? && ClassifySeed(c).value.Ms? ==> ClassifySeed(c).value.n == DigitsValue(c[2..]))
      && (ClassifySeed(c).Err? && ClassifySeed(c).error.NonDigits? ==> ClassifySeed(c).error.cleaned == c && !AllDigits(c))
  {
    if |c| >= 2 && c[..2] == "ms" {
      assert c[0] == 'm';
      assert !AllDigits(c);
    }
  }

  lemma CleanCharOfClean(c: char)
    requires !IsSeedSeparator(c) && !('A' <= c <= 'Z')
    ensures CleanChar(c) == [c]
  {
  }

  /** A clean string is its own cleaning. */
  lemma {:induction false} CleanSeedOfClean(s: string)
    requires IsClean(s)
    ensures CleanSeed(s) == s
  {
    if s != [] {
      var init := s[..|s| - 1];
      assert IsClean(init) by {
        assert forall k :: 0 <= k < |init| ==> init[k] == s[k];
      }
      CleanSeedOfClean(init);
      CleanCharOfClean(s[|s| - 1]);
      assert s == init + [s[|s| - 1]];
    }
  }

  /** Cleaning twice is cleaning once. */
  lemma CleanSeedIdempotent(t: string)
    ensures CleanSeed(CleanSeed(t)) == CleanSeed(t)
  {
    CleanSeedIsClean(t);
    CleanSeedOfClean(CleanSeed(t));
  }

  /** The cleaning works character by character. */
  lemma {:induction false} CleanSeedConcat(a: string, b: string)
    ensures CleanSeed(a + b) == CleanSeed(a) + CleanSeed(b)
    decreases |b|
  {
    if b != [] {
      var b0 := b[..|b| - 1];
      assert (a + b)[..|a + b| - 1] == a + b0;
      CleanSeedConcat(a, b0);
    } else {
      assert a + b == a;
    }
  }

  lemma SeparatorDropped(a: string, c: char)
    requires IsSeedSeparator(ToAsciiLower(c))
    ensures CleanSeed(a + [c]) == CleanSeed(a)
  {
    assert (a + [c])[..|a|] == a;
  }

  /** A separator anywhere, in either case, makes no difference to the seed. */
  lemma SeparatorIgnored(a: string, c: char, b: string)
    requires IsSeedSeparator(ToAsciiLower(c))
    ensures CleanSeed(a + [c] + b) == CleanSeed(a + b)
  {
    CleanSeedConcat(a + [c], b);
    SeparatorDropped(a, c);
    CleanSeedConcat(a, b);
  }

  /** A string that neither starts nor ends with White_Space trims to itself. */
  lemma TrimNoop(s: string)
    requires s != [] && !IsWhitespace(s[0]) && !IsWhitespace(s[|s| - 1])
    ensures Trim(s) == s
  {
  }

  /** The displayed form of a seed has nothing to trim and no trailing `L`. */
  lemma DisplayedUntrimmed(seed: PysolSeed)
    ensures DropTrailingL(Trim(SeedDisplay(seed))) == SeedDisplay(seed)
  {
    var d := SeedDisplay(seed);
    var digits := NatToString(seed.n);
    assert d[|d| - 1] == digits[|digits| - 1];
    assert d[0] == 'm' || IsAsciiDigit(d[0]);
    TrimNoop(d);
  }

  /** The displayed form of a seed has no separator and no capital. */
  lemma DisplayedClean(seed: PysolSeed)
    ensures IsClean(SeedDisplay(seed))
  {
    var d := SeedDisplay(seed);
    assert forall k :: 0 <= k < |d| ==> d[k] == 'm' || d[k] == 's' || IsAsciiDigit(d[k]);
  }

  /** The displayed form of a seed is already normalised text. */
  lemma DisplayedIsClean(seed: PysolSeed)
    ensures Cleaned(SeedDisplay(seed)) == SeedDisplay(seed)
  {
    DisplayedUntrimmed(seed);
    DisplayedClean(seed);
    CleanSeedOfClean(SeedDisplay(seed));
  }

  lemma ClassifyMs(ds: string)
    requires ds != [] && AllDigits(ds) && DigitsValue(ds) < U64_LIMIT
    ensures ClassifySeed("ms" + ds) == Ok(Ms(DigitsValue(ds)))
  {
    var c := "ms" + ds;
    assert c[..2] == "ms" && c[2..] == ds;
  }

  lemma ClassifyNum(ds: string)
    requires ds != [] && AllDigits(ds)
    ensures ClassifySeed(ds) == Ok(Num(DigitsValue(ds)))
  {
    assert ds[0] != 'm';
  }

  /** The displayed form of a seed normalises back to that seed (for `ms`, a `u64`). */
  lemma NormalizeDisplayed(seed: PysolSeed)
    requires seed.Ms? ==> seed.n < U64_LIMIT
    ensures NormalizeSeed(SeedDisplay(seed)) == Ok(seed)
  {
    DisplayedIsClean(seed);
    NatToStringValue(seed.n);
    if seed.Ms? {
      ClassifyMs(NatToString(seed.n));
    } else {
      ClassifyNum(NatToString(seed.n));
    }
  }

  // ---------------------------------------------------------------------
  // pysol_card_to_rust_index

  /** `PYSOL_SUIT_TO_RUST_SUIT`: PySol numbers the suits Clubs, Spades, Hearts, Diamonds. */
  const PYSOL_SUIT_TO_RUST_SUIT: seq<nat> := [1, 2, 0, 3]

  /** The suits in PySol's order. */
  const PYSOL_SUITS: seq<Suit> := [Clubs, Spades, Hearts, Diamonds]

  /**
   * `pysol_card_to_rust_index`: the engine's index of PySol's card. The
   * `u8` arithmetic must not overflow, which holds for every rank below 217.
   */
  function PysolCardToRustIndex(pysolSuit: nat, rank: nat): (r: nat)
    requires pysolSuit < 4 && RustSuitOf(pysolSuit) * NUM_RANKS + rank < U8_LIMIT
    ensures rank < NUM_RANKS ==> r < CARDS_PER_DECK && CardSuit(r) == PYSOL_SUITS[pysolSuit] && CardRank(r) == RANK_ALL[rank]
  {
    RustSuitOf(pysolSuit) * NUM_RANKS + rank
  }

  /** The engine's suit number of a PySol suit number. */
  function RustSuitOf(pysolSuit: nat): (r: nat)
    requires pysolSuit < 4
    ensures r < 4 && SuitValue(PYSOL_SUITS[pysolSuit]) == r
    ensures r * NUM_RANKS + NUM_RANKS <= CARDS_PER_DECK
  {
    PYSOL_SUIT_TO_RUST_SUIT[pysolSuit]
  }

  /** PySol's suit and rank of an engine card. */
  function PysolSuitRank(c: Card): (r: (nat, nat))
    ensures r.0 < 4 && r.1 < NUM_RANKS
  {
    var s := c / NUM_RANKS;
    (if s == 0 then 2 else if s == 1 then 0 else if s == 2 then 1 else 3, c % NUM_RANKS)
  }

  /** The mapping is a bijection from the 4 x 13 PySol cards onto the 52 cards: both round trips. */
  lemma PysolCardBijection(pysolSuit: nat, rank: nat, c: Card)
    requires pysolSuit < 4 && rank < NUM_RANKS
    ensures PysolSuitRank(PysolCardToRustIndex(pysolSuit, rank)) == (pysolSuit, rank)
    ensures var (s, r) := PysolSuitRank(c); PysolCardToRustIndex(s, r) == c
  {
  }

  /** Different PySol cards map to different engine cards. */
  lemma PysolCardInjective(s1: nat, r1: nat, s2: nat, r2: nat)
    requires s1 < 4 && r1 < NUM_RANKS && s2 < 4 && r2 < NUM_RANKS
    requires PysolCardToRustIndex(s1, r1) == PysolCardToRustIndex(s2, r2)
    ensures s1 == s2 && r1 == r2
  {
    PysolCardBijection(s1, r1, 0);
    PysolCardBijection(s2, r2, 0);
  }

  // ---------------------------------------------------------------------
  // LCRandom31

  /** `LCRandom31::MAX_SEED`, 2^33 - 1. */
  const MAX_SEED: nat := 0x1_FFFF_FFFF
  const U32_LIMIT: nat := 0x1_0000_0000

  /** The working state a seed starts from: the seed itself, less 2^32 for the seeds above it. */
  function InitialSeedx(seed: nat): (x: nat)
    requires seed <= MAX_SEED
    ensures x < U32_LIMIT && (x == seed || x + U32_LIMIT == seed)
  {
    if seed < U32_LIMIT then seed else seed - U32_LIMIT
  }

  /**
   * `rand_step`: the 64-bit wrapping multiply-add, then the mask with
   * `MAX_SEED`, which keeps the low 33 bits.
   */
  function LcNext(x: nat): (r: nat)
    ensures r <= MAX_SEED
  {
    ((x * 214013) % U64_LIMIT + 2531011) % U64_LIMIT % (MAX_SEED + 1)
  }

  /**
   * `random_u16ish` from the working state `x`: the value and the next
   * state. Seeds below 2^31 draw 15 bits; the rest of the 32-bit seeds set
   * bit 15 on top (the `| 0x8000`, an addition since the 15 bits are below
   * it); larger seeds draw 16 bits plus one.
   */
  function Random(seed: nat, x: nat): (r: (nat, nat))
    ensures r.1 == LcNext(x)
    ensures seed < 0x8000_0000 ==> r.0 < 0x8000
    ensures 0x8000_0000 <= seed < U32_LIMIT ==> 0x8000 <= r.0 < 0x1_0000
    ensures U32_LIMIT <= seed ==> 1 <= r.0 <= 0x1_0000
  {
    var nx := LcNext(x);
    if seed < U32_LIMIT then
      var r15 := (nx / 0x1_0000) % 0x8000;
      if seed < 0x8000_0000 then (r15, nx) else (r15 + 0x8000, nx)
    else ((nx / 0x1_0000) % 0x1_0000 + 1, nx)
  }

  /**
   * `randint_inclusive(a, b)`: `a` without drawing when the span
   * `(b + 1) - a` (saturating) is at most one, and otherwise `a` plus the
   * draw modulo the span.
   */
  function Randint(seed: nat, x: nat, a: nat, b: nat): (r: (nat, nat))
  {
    var span := if b + 1 >= a then b + 1 - a else 0;
    if span <= 1 then (a, x)
    else
      var (v, nx) := Random(seed, x);
      (a + v % span, nx)
  }

  /** The draw lies in `[a, b]`; with nothing to choose from it is `a` and the state is untouched. */
  lemma RandintInRange(seed: nat, x: nat, a: nat, b: nat)
    ensures a <= b ==> a <= Randint(seed, x, a, b).0 <= b
    ensures b <= a ==> Randint(seed, x, a, b) == (a, x)
    ensures a < b ==> Randint(seed, x, a, b).1 == LcNext(x)
  {
  }

  /** The shuffle's steps for `n`, `n - 1`, ..., 1: swap `n` with a draw from `[0, n]`. */
  function ShuffleSteps<T>(seed: nat, x: nat, s: seq<T>, n: nat): (r: (seq<T>, nat))
    requires n < |s|
    ensures |r.0| == |s|
    decreases n
  {
    if n == 0 then (s, x)
    else
      var (j, nx) := Randint(seed, x, 0, n);
      RandintInRange(seed, x, 0, n);
      ShuffleSteps(seed, nx, Swap(s, n, j), n - 1)
  }

  /** One step of the shuffle: draw `j` from `[0, n]`, swap, and carry on from `n - 1`. */
  lemma ShuffleStepsUnfold<T>(seed: nat, x: nat, s: seq<T>, n: nat)
    requires 0 < n < |s|
    ensures var (j, nx) := Randint(seed, x, 0, n);
      j <= n && ShuffleSteps(seed, x, s, n) == ShuffleSteps(seed, nx, Swap(s, n, j), n - 1)
  {
    RandintInRange(seed, x, 0, n);
  }

  /** `Shuffle::shuffle` as a value: the shuffled sequence and the generator's state after it. */
  function ShuffleOf<T>(seed: nat, x: nat, s: seq<T>): (r: (seq<T>, nat))
    ensures |r.0| == |s|
  {
    if |s| <= 1 then (s, x) else ShuffleSteps(seed, x, s, |s| - 1)
  }

  lemma {:induction false} ShuffleStepsMultiset<T>(seed: nat, x: nat, s: seq<T>, n: nat)
    requires n < |s|
    ensures multiset(ShuffleSteps(seed, x, s, n).0) == multiset(s)
    decreases n
  {
    if n > 0 {
      var (j, nx) := Randint(seed, x, 0, n);
      RandintInRange(seed, x, 0, n);
      SwapMultiset(s, n, j);
      ShuffleStepsMultiset(seed, nx, Swap(s, n, j), n - 1);
    }
  }

  /** The shuffle only rearranges: the result is a permutation of its input. */
  lemma ShufflePermutes<T>(seed: nat, x: nat, s: seq<T>)
    ensures multiset(ShuffleOf(seed, x, s).0) == multiset(s)
  {
    if |s| > 1 {
      ShuffleStepsMultiset(seed, x, s, |s| - 1);
    }
  }

  /** `LCRandom31`: the seed it was made with and the working state `seedx`. */
  class LCRandom31 {
    var seed: nat
    var seedx: nat

    /** The seed is in range and `rand_step` has kept the state within `MAX_SEED`. */
    ghost predicate Valid()
      reads this
    {
      1 <= seed <= MAX_SEED && seedx <= MAX_SEED
    }

    /** The `Ok` branch of `LCRandom31::new`. */
    constructor (seed: nat)
      requires 1 <= seed <= MAX_SEED
      ensures Valid() && this.seed == seed && seedx == InitialSeedx(seed)
    {
      this.seed := seed;
      seedx := if seed < U32_LIMIT then seed else seed - U32_LIMIT;
    }

    method RandStep()
      modifies this
      requires Valid()
      ensures Valid() && seed == old(seed) && seedx == LcNext(old(seedx))
    {
      seedx := ((seedx * 214013) % U64_LIMIT + 2531011) % U64_LIMIT % (MAX_SEED + 1);
    }

    method Rand15() returns (r: nat)
      modifies this
      requires Valid()
      ensures Valid() && seed == old(seed) && seedx == LcNext(old(seedx))
      ensures r == (seedx / 0x1_0000) % 0x8000
    {
      RandStep();
      r := (seedx / 0x1_0000) % 0x8000;
    }

    method Rand16() returns (r: nat)
      modifies this
      requires Valid()
      ensures Valid() && seed == old(seed) && seedx == LcNext(old(seedx))
      ensures r == (seedx / 0x1_0000) % 0x1_0000
    {
      RandStep();
      r := (seedx / 0x1_0000) % 0x1_0000;
    }

    /** `random_u16ish`. */
    method RandomU16ish() returns (r: nat)
      modifies this
      requires Valid()
      ensures Valid() && seed == old(seed) && (r, seedx) == Random(seed, old(seedx))
    {
      if seed < U32_LIMIT {
        r := Rand15();
        if seed >= 0x8000_0000 {
          r := r + 0x8000;
        }
      } else {
        r := Rand16();
        r := r + 1;
      }
    }

    /** `randint_inclusive`. */
    method RandintInclusive(a: nat, b: nat) returns (r: nat)
      modifies this
      requires Valid()
      ensures Valid() && seed == old(seed) && (r, seedx) == Randint(seed, old(seedx), a, b)
    {
      var span := if b + 1 >= a then b + 1 - a else 0;
      if span <= 1 {
        return a;
      }
      var v := RandomU16ish();
      r := a + v % span;
    }

    /** `Shuffle::shuffle`: for `n` from the last index down to 1, swap `n` with a draw from `[0, n]`. */
    method Shuffle<T>(a: array<T>)
      modifies this, a
      requires Valid()
      ensures Valid() && seed == old(seed) && (a[..], seedx) == ShuffleOf(seed, old(seedx), old(a[..]))
    {
      if a.Length <= 1 {
        return;
      }
      var n := a.Length - 1;
      while n >= 1
        invariant 0 <= n < a.Length && Valid() && seed == old(seed)
        invariant ShuffleSteps(seed, seedx, a[..], n) == ShuffleSteps(seed, old(seedx), old(a[..]), a.Length - 1)
        decreases n
      {
        ghost var x0, prev := seedx, a[..];
        var j := RandintInclusive(0, n);
        RandintInRange(seed, x0, 0, n);
        a[n], a[j] := a[j], a[n];
        assert a[..] == Swap(prev, n, j);
        ShuffleStepsUnfold(seed, x0, prev, n);
        n := n - 1;
      }
    }
  }

  /** `LCRandom31::new`: seeds 0 and above `MAX_SEED` are refused. */
  method NewLCRandom31(seed: nat) returns (r: Result<LCRandom31, SeedError>)
    ensures r.Err? <==> seed < 1 || seed > MAX_SEED
    ensures r.Err? ==> r.error == MsSeedOutOfRange
    ensures r.Ok? ==> fresh(r.value) && r.value.Valid() && r.value.seed == seed && r.value.seedx == InitialSeedx(seed)
  {
    if seed < 1 || seed > MAX_SEED {
      return Err(MsSeedOutOfRange);
    }
    var rng := new LCRandom31(seed);
    r := Ok(rng);
  }

  // ---------------------------------------------------------------------
  // generate_deck_from_seed, the LCRandom31 branch

  /** The seeds dealt with `LCRandom31`: every `ms` seed, and plain seeds below 32000. */
  predicate UsesLcRandom(seed: PysolSeed)
  {
    seed.Ms? || seed.n < 32000
  }

  /** Every pair is a PySol suit number and a rank. */
  predicate ArePysolPairs(ps: seq<(nat, nat)>)
  {
    forall k :: 0 <= k < |ps| ==> ps[k].0 < 4 && ps[k].1 < NUM_RANKS
  }

  /** PySol's unshuffled deck: (suit, rank) pairs, suit-major. */
  function PysolPairs(): (r: seq<(nat, nat)>)
    ensures |r| == CARDS_PER_DECK
    ensures forall k :: 0 <= k < |r| ==> r[k] == (k / NUM_RANKS, k % NUM_RANKS)
  {
    seq(CARDS_PER_DECK, k requires 0 <= k < CARDS_PER_DECK => (k / NUM_RANKS, k % NUM_RANKS))
  }

  /** `Vec::reverse`. */
  function Reversed<T>(s: seq<T>): (r: seq<T>)
    ensures |r| == |s| && forall k :: 0 <= k < |s| ==> r[k] == s[|s| - 1 - k]
  {
    seq(|s|, k requires 0 <= k < |s| => s[|s| - 1 - k])
  }

  /** Every PySol card of `ps` as the engine's card. */
  function RustCards(ps: seq<(nat, nat)>): (r: seq<Card>)
    requires ArePysolPairs(ps)
    ensures |r| == |ps| && forall k :: 0 <= k < |ps| ==> r[k] == PysolCardToRustIndex(ps[k].0, ps[k].1)
  {
    seq(|ps|, k requires 0 <= k < |ps| => PysolCardToRustIndex(ps[k].0, ps[k].1))
  }

  /** The pairs after `LCRandom31` seeded with `n` has shuffled them. */
  function ShuffledPairs(n: nat): (r: seq<(nat, nat)>)
    requires 1 <= n <= MAX_SEED
    ensures |r| == CARDS_PER_DECK && ArePysolPairs(r)
  {
    var r := ShuffleOf(n, InitialSeedx(n), PysolPairs()).0;
    ShuffledPairsValid(n, r);
    r
  }

  lemma ShuffledPairsValid(n: nat, r: seq<(nat, nat)>)
    requires 1 <= n <= MAX_SEED && r == ShuffleOf(n, InitialSeedx(n), PysolPairs()).0
    ensures ArePysolPairs(r)
  {
    ShufflePermutes(n, InitialSeedx(n), PysolPairs());
    forall k | 0 <= k < |r|
      ensures r[k].0 < 4 && r[k].1 < NUM_RANKS
    {
      assert r[k] in multiset(r);
      assert r[k] in PysolPairs();
    }
  }

  /** The deal of the `LCRandom31` branch for the seed value `n`: shuffle, reverse, renumber. */
  function PysolLcDeck(n: nat): Result<seq<Card>, SeedError>
  {
    if n < 1 || n > MAX_SEED then Err(MsSeedOutOfRange)
    else Ok(RustCards(Reversed(ShuffledPairs(n))))
  }

  predicate DistinctSeq<T(==)>(s: seq<T>)
  {
    forall i, j :: 0 <= i < j < |s| ==> s[i] != s[j]
  }

  lemma {:induction false} DistinctAtMostOnce<T>(s: seq<T>, x: T)
    requires DistinctSeq(s)
    ensures multiset(s)[x] <= 1
  {
    if s != [] {
      var init := s[..|s| - 1];
      assert s == init + [s[|s| - 1]];
      assert DistinctSeq(init);
      DistinctAtMostOnce(init, x);
      if x == s[|s| - 1] {
        assert x !in init;
      }
    }
  }

  lemma RepeatedTwice<T>(s: seq<T>, i: nat, j: nat)
    requires i < j < |s| && s[i] == s[j]
    ensures multiset(s)[s[i]] >= 2
  {
    var x := s[i];
    assert s == s[..j] + [s[j]] + s[j + 1..];
    assert x in s[..j];
  }

  /** Rearranging a sequence without repeats gives one without repeats. */
  lemma SameMultisetDistinct<T>(a: seq<T>, b: seq<T>)
    requires multiset(a) == multiset(b) && DistinctSeq(b)
    ensures DistinctSeq(a)
  {
    forall i, j | 0 <= i < j < |a|
      ensures a[i] != a[j]
    {
      if a[i] == a[j] {
        RepeatedTwice(a, i, j);
        DistinctAtMostOnce(b, a[i]);
      }
    }
  }

  lemma PysolPairsDistinct()
    ensures DistinctSeq(PysolPairs())
  {
  }

  /** The `LCRandom31` branch deals exactly for the seeds 1 to `MAX_SEED`, and every deal holds each of the 52 cards once. */
  lemma PysolLcDeckIsPermutation(n: nat)
    ensures PysolLcDeck(n).Ok? <==> 1 <= n <= MAX_SEED
    ensures PysolLcDeck(n).Ok? ==> IsPermutation(PysolLcDeck(n).value)
  {
    if n < 1 || n > MAX_SEED {
      return;
    }
    var sp := ShuffledPairs(n);
    ShufflePermutes(n, InitialSeedx(n), PysolPairs());
    PysolPairsDistinct();
    SameMultisetDistinct(sp, PysolPairs());
    var rev := Reversed(sp);
    var deck := RustCards(rev);
    forall i, j | 0 <= i < j < |deck|
      ensures deck[i] != deck[j]
    {
      if deck[i] == deck[j] {
        PysolCardInjective(rev[i].0, rev[i].1, rev[j].0, rev[j].1);
      }
    }
    DistinctIsPermutation(deck);
  }

  /**
   * `generate_deck_from_seed` for the seeds it deals with `LCRandom31`:
   * build the suit-major pairs, seed (0 and seeds above `MAX_SEED` are
   * errors), shuffle, reverse and renumber into the deck.
   */
  method GenerateDeckFromSeed(seed: PysolSeed) returns (r: Result<seq<Card>, SeedError>)
    requires UsesLcRandom(seed)
    ensures r == PysolLcDeck(seed.n)
    ensures r.Ok? ==> IsPermutation(r.value)
  {
    var cards := NewPysolPairs();
    var rng := NewLCRandom31(seed.n);
    if rng.Err? {
      return Err(rng.error);
    }
    rng.value.Shuffle(cards);
    var shuffled := cards[..];
    assert shuffled == ShuffledPairs(seed.n);
    var deck := RenumberCards(Reversed(shuffled));
    r := Ok(deck);
    PysolLcDeckIsPermutation(seed.n);
  }

  /**
   * `deck_from_pysol_seed_str` for the seeds dealt with `LCRandom31`: the
   * normaliser's error, or the deal labelled `seed:` and the seed's
   * displayed form.
   */
  method DeckFromPysolSeedStr(s: string) returns (r: Result<PysolDecks.DeckSpec, SeedError>)
    requires NormalizeSeed(s).Ok? ==> UsesLcRandom(NormalizeSeed(s).value)
    ensures NormalizeSeed(s).Err? ==> r == Err(NormalizeSeed(s).error)
    ensures NormalizeSeed(s).Ok? ==>
      var n := NormalizeSeed(s).value.n;
      && (r.Err? <==> n < 1 || n > MAX_SEED)
      && (r.Err? ==> r.error == MsSeedOutOfRange)
      && (r.Ok? ==> r.value.name == "seed:" + SeedDisplay(NormalizeSeed(s).value))
      && (r.Ok? ==> r.value.deck == PysolLcDeck(n).value && IsPermutation(r.value.deck))
  {
    var seed := NormalizePysolSeedStr(s);
    if seed.Err? {
      return Err(seed.error);
    }
    var name := "seed:" + SeedDisplay(seed.value);
    var deck := GenerateDeckFromSeed(seed.value);
    if deck.Err? {
      PysolLcDeckIsPermutation(seed.value.n);
      return Err(deck.error);
    }
    PysolLcDeckIsPermutation(seed.value.n);
    r := Ok(PysolDecks.DeckSpec(name, deck.value));
  }

  /** The opening loops of `generate_deck_from_seed`: the pairs, suit by suit and rank by rank. */
  method NewPysolPairs() returns (cards: array<(nat, nat)>)
    ensures fresh(cards) && cards[..] == PysolPairs()
  {
    cards := new (nat, nat)[CARDS_PER_DECK](_ => (0, 0));
    var i := 0;
    for suit := 0 to NUM_SUITS
      invariant i == suit * NUM_RANKS
      invariant forall k :: 0 <= k < i ==> cards[k] == PysolPairs()[k]
    {
      for rank := 0 to NUM_RANKS
        invariant i == suit * NUM_RANKS + rank
        invariant forall k :: 0 <= k < i ==> cards[k] == PysolPairs()[k]
      {
        cards[i] := (suit, rank);
        i := i + 1;
      }
    }
  }

  /** The closing loop of `generate_deck_from_seed`: each PySol card in turn as the engine's card. */
  method RenumberCards(ps: seq<(nat, nat)>) returns (deck: seq<Card>)
    requires |ps| == CARDS_PER_DECK && ArePysolPairs(ps)
    ensures deck == RustCards(ps)
  {
    var cards := new Card[CARDS_PER_DECK](_ => 0);
    for k := 0 to CARDS_PER_DECK
      invariant forall m :: 0 <= m < k ==> cards[m] == PysolCardToRustIndex(ps[m].0, ps[m].1)
    {
      cards[k] := PysolCardToRustIndex(ps[k].0, ps[k].1);
    }
    deck := cards[..];
  }
}
