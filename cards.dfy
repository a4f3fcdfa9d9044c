/**
 * Cards of a standard 52-card deck, encoded as `suit * 13 + rank`,
 * with the fixed suit order Hearts, Clubs, Spades, Diamonds and the rank
 * order Ace..King; the standard deck and the seeded LCG shuffle.
 */
module Cards {
  const NUM_SUITS: nat := 4
  const NUM_RANKS: nat := 13
  const CARDS_PER_DECK: nat := 52

  /** A card is its index in 0..51: `suit * 13 + rank`. */
  type Card = c: int | 0 <= c < 52

  datatype Suit = Hearts | Clubs | Spades | Diamonds

  datatype Rank = Ace | Two | Three | Four | Five | Six | Seven
                | Eight | Nine | Ten | Jack | Queen | King

  /** The discriminant `suit as u8`. */
  function SuitValue(s: Suit): (v: nat)
    ensures v < NUM_SUITS
  {
    match s
    case Hearts => 0
    case Clubs => 1
    case Spades => 2
    case Diamonds => 3
  }

  /** The discriminant `rank as u8`. */
  function RankValue(r: Rank): (v: nat)
    ensures v < NUM_RANKS
  {
    match r
    case Ace => 0
    case Two => 1
    case Three => 2
    case Four => 3
    case Five => 4
    case Six => 5
    case Seven => 6
    case Eight => 7
    case Nine => 8
    case Ten => 9
    case Jack => 10
    case Queen => 11
    case King => 12
  }

  const SUIT_ALL: seq<Suit> := [Hearts, Clubs, Spades, Diamonds]
  const RANK_ALL: seq<Rank> :=
    [Ace, Two, Three, Four, Five, Six, Seven, Eight, Nine, Ten, Jack, Queen, King]

  /** Inverse of the suit discriminant; `Suit::from_u8` panics on 4 and above. */
  function SuitFromU8(v: nat): (s: Suit)
    requires v < NUM_SUITS
    ensures SuitValue(s) == v && s == SUIT_ALL[v]
  {
    if v == 0 then Hearts
    else if v == 1 then Clubs
    else if v == 2 then Spades
    else Diamonds
  }

  /** Inverse of the rank discriminant; `Rank::from_u8` panics on 13 and above. */
  function RankFromU8(v: nat): (r: Rank)
    requires v < NUM_RANKS
    ensures RankValue(r) == v && r == RANK_ALL[v]
  {
    if v == 0 then Ace
    else if v == 1 then Two
    else if v == 2 then Three
    else if v == 3 then Four
    else if v == 4 then Five
    else if v == 5 then Six
    else if v == 6 then Seven
    else if v == 7 then Eight
    else if v == 8 then Nine
    else if v == 9 then Ten
    else if v == 10 then Jack
    else if v == 11 then Queen
    else King
  }

  function CardSuit(c: Card): Suit
  {
    SuitFromU8(c / NUM_RANKS)
  }

  function CardRank(c: Card): Rank
  {
    RankFromU8(c % NUM_RANKS)
  }

  /** `Card::new`: the card with the given suit and rank. */
  function NewCard(suit: Suit, rank: Rank): (c: Card)
    ensures CardSuit(c) == suit && CardRank(c) == rank
  {
    SuitValue(suit) * NUM_RANKS + RankValue(rank)
  }

  /** `Card::from_index`; `Card::from_index` has a debug assertion against an index of 52 or more. */
  function FromIndex(index: nat): (c: Card)
    requires index < CARDS_PER_DECK
    ensures Index(c) == index
  {
    index
  }

  /** `Card::index`: suit-major position in the standard deck. */
  function Index(c: Card): (i: nat)
    ensures i < CARDS_PER_DECK
    ensures i == SuitValue(CardSuit(c)) * NUM_RANKS + RankValue(CardRank(c))
  {
    c
  }

  /** `Rank::number`: Ace is 1, King is 13. */
  function RankNumberOf(r: Rank): nat
  {
    RankValue(r) + 1
  }

  /** `Card::rank_number`. */
  function RankNumber(c: Card): (n: nat)
    ensures 1 <= n <= NUM_RANKS
  {
    RankNumberOf(CardRank(c))
  }

  /** 'R' for red suits, 'B' for black suits. */
  function Color(c: Card): (col: char)
    ensures col == 'R' || col == 'B'
    ensures col == 'R' <==> (CardSuit(c) == Hearts || CardSuit(c) == Diamonds)
  {
    match CardSuit(c)
    case Hearts => 'R'
    case Diamonds => 'R'
    case Clubs => 'B'
    case Spades => 'B'
  }

  function SuitShortChar(s: Suit): char
  {
    match s
    case Hearts => 'H'
    case Clubs => 'C'
    case Spades => 'S'
    case Diamonds => 'D'
  }

  function RankChar(r: Rank): char
  {
    match r
    case Ace => 'A'
    case Two => '2'
    case Three => '3'
    case Four => '4'
    case Five => '5'
    case Six => '6'
    case Seven => '7'
    case Eight => '8'
    case Nine => '9'
    case Ten => 'T'
    case Jack => 'J'
    case Queen => 'Q'
    case King => 'K'
  }

  /** Two-character name such as "AH", "7C", "TD", "KS". */
  function ShortStr(c: Card): (s: string)
    ensures |s| == 2 && s[0] in "A23456789TJQK" && s[1] in "HDCS"
  {
    [RankChar(CardRank(c)), SuitShortChar(CardSuit(c))]
  }

  /** Can `upper` be placed on `lower` in a tableau column? */
  predicate IsOneLowerOppositeColor(upper: Card, lower: Card)
    ensures IsOneLowerOppositeColor(upper, lower) ==> CardSuit(upper) != CardSuit(lower) && CardRank(upper) != King && CardRank(lower) != Ace
  {
    RankNumber(upper) + 1 == RankNumber(lower) && Color(upper) != Color(lower)
  }

  // ---------------------------------------------------------------------
  // Decks as permutations of the 52 indices

  function AllCards(): (s: seq<Card>)
    ensures |s| == CARDS_PER_DECK && forall i :: 0 <= i < |s| ==> s[i] == i
  {
    seq(CARDS_PER_DECK, i requires 0 <= i < CARDS_PER_DECK => i)
  }

  /** A deck holds every one of the 52 cards exactly once. */
  ghost predicate IsPermutation(d: seq<Card>)
  {
    multiset(d) == multiset(AllCards())
  }

  predicate Distinct(d: seq<Card>)
  {
    forall i, j :: 0 <= i < j < |d| ==> d[i] != d[j]
  }

  /** The set of cards in `d`. */
  function Elements(d: seq<Card>): (r: set<Card>)
    ensures forall x :: x in r <==> x in d
  {
    if d == [] then {} else {d[0]} + Elements(d[1..])
  }

  lemma DistinctElements(d: seq<Card>)
    requires Distinct(d)
    ensures |Elements(d)| == |d|
    ensures multiset(d) == multiset(Elements(d))
  {
    DistinctElementsSize(d);
    DistinctElementsMultiset(d);
  }

  lemma {:induction false} DistinctElementsSize(d: seq<Card>)
    requires Distinct(d)
    ensures |Elements(d)| == |d|
  {
    if d != [] {
      var rest := d[1..];
      assert Distinct(rest);
      DistinctElementsSize(rest);
      assert d[0] !in Elements(rest) by {
        assert d[0] !in rest;
      }
    }
  }

  lemma DistinctElementsMultiset(d: seq<Card>)
    requires Distinct(d)
    ensures multiset(d) == multiset(Elements(d))
  {
    forall x: Card
      ensures multiset(d)[x] == multiset(Elements(d))[x]
    {
      DistinctCount(d, x);
    }
  }

  /** In a sequence without repeats each card occurs at most once. */
  lemma {:induction false} DistinctCount(d: seq<Card>, x: Card)
    requires Distinct(d)
    ensures multiset(d)[x] == if x in d then 1 else 0
  {
    if d != [] {
      var rest := d[1..];
      assert Distinct(rest);
      DistinctCount(rest, x);
      assert d == [d[0]] + rest;
      assert multiset(d) == multiset{d[0]} + multiset(rest);
      assert d[0] !in rest;
      assert x in d <==> x == d[0] || x in rest;
    }
  }

  lemma AllCardsElements()
    ensures |Elements(AllCards())| == CARDS_PER_DECK
    ensures multiset(AllCards()) == multiset(Elements(AllCards()))
    ensures forall x: Card :: x in Elements(AllCards())
  {
    var all := AllCards();
    assert Distinct(all);
    DistinctElements(all);
    forall x: Card ensures x in Elements(all) {
      assert all[x] == x;
    }
  }

  /** A set of 52 cards is every card. */
  lemma FullSet(sd: set<Card>)
    requires |sd| == CARDS_PER_DECK
    ensures sd == Elements(AllCards())
  {
    AllCardsElements();
    var sa := Elements(AllCards());
    assert sd <= sa;
    assert |sa - sd| == |sa| - |sd| == 0;
  }

  /** Pigeonhole: 52 distinct cards are the whole deck. */
  lemma DistinctIsPermutation(d: seq<Card>)
    requires |d| == CARDS_PER_DECK && Distinct(d)
    ensures IsPermutation(d)
  {
    DistinctElements(d);
    FullSet(Elements(d));
    AllCardsElements();
  }

  /** Each card occurs once in `AllCards()`. */
  lemma AllCardsOnce(x: Card)
    ensures multiset(AllCards())[x] == 1
  {
    AllCardsElements();
  }

  lemma CountTwice(d: seq<Card>, i: nat, j: nat)
    requires i < j < |d| && d[i] == d[j]
    ensures multiset(d)[d[i]] >= 2
  {
    assert d == d[..i] + [d[i]] + d[i + 1..j] + [d[j]] + d[j + 1..];
  }

  /** A permutation never repeats a card. */
  lemma PermutationIsDistinct(d: seq<Card>)
    requires IsPermutation(d)
    ensures |d| == CARDS_PER_DECK && Distinct(d)
  {
    assert |d| == |multiset(d)| == |multiset(AllCards())| == CARDS_PER_DECK;
    forall i, j | 0 <= i < j < |d| ensures d[i] != d[j] {
      if d[i] == d[j] {
        CountTwice(d, i, j);
        AllCardsOnce(d[i]);
        assert false;
      }
    }
  }

  // ---------------------------------------------------------------------
  // Standard and shuffled decks

  /** `standard_deck`: suits in `SUIT_ALL` order, ranks Ace..King, so card i is at index i. */
  method StandardDeck() returns (deck: seq<Card>)
    ensures deck == AllCards()
    ensures IsPermutation(deck)
  {
    var cards := new Card[CARDS_PER_DECK](_ => 0);
    var i := 0;
    for si := 0 to NUM_SUITS
      invariant i == si * NUM_RANKS
      invariant forall k :: 0 <= k < i ==> cards[k] == k
    {
      for ri := 0 to NUM_RANKS
        invariant i == si * NUM_RANKS + ri
        invariant forall k :: 0 <= k < i ==> cards[k] == k
      {
        NewCardIndex(si, ri);
        cards[i] := NewCard(SUIT_ALL[si], RANK_ALL[ri]);
        i := i + 1;
      }
    }
    deck := cards[..];
  }

  /** The card with the `si`-th suit and `ri`-th rank is card `si * 13 + ri`. */
  lemma NewCardIndex(si: nat, ri: nat)
    requires si < NUM_SUITS && ri < NUM_RANKS
    ensures NewCard(SUIT_ALL[si], RANK_ALL[ri]) == si * NUM_RANKS + ri
  {
    assert SuitValue(SuitFromU8(si)) == si && RankValue(RankFromU8(ri)) == ri;
  }

  /** `slice.swap(i, j)`. */
  function Swap<T>(s: seq<T>, i: nat, j: nat): (r: seq<T>)
    requires i < |s| && j < |s|
    ensures |r| == |s| && r[i] == s[j] && r[j] == s[i]
    ensures forall k :: 0 <= k < |s| && k != i && k != j ==> r[k] == s[k]
  {
    s[i := s[j]][j := s[i]]
  }

  lemma SwapMultiset<T>(s: seq<T>, i: nat, j: nat)
    requires i < |s| && j < |s|
    ensures multiset(Swap(s, i, j)) == multiset(s)
  {
    if i != j {
      assert s[i := s[j]] == s[..i] + [s[j]] + s[i + 1..];
    }
  }

  /** One step of the shuffle's 32-bit LCG, wrapping in `u32` as `lcg` inside `shuffled_deck_from_seed` does. */
  function LcgStep(state: nat): (next: nat)
    ensures next < 0x1_0000_0000
  {
    ((state * 1664525) % 0x1_0000_0000 + 1013904223) % 0x1_0000_0000
  }

  /** The shuffle's steps for `i`, `i - 1`, ..., 1: advance the LCG and swap `i` with its value mod `i + 1`. */
  function LcgShuffle(state: nat, s: seq<Card>, i: nat): (r: seq<Card>)
    requires i < |s|
    decreases i
  {
    if i == 0 then s
    else
      var next := LcgStep(state);
      LcgShuffle(next, Swap(s, i, next % (i + 1)), i - 1)
  }

  /** The seeded shuffle of the standard deck. */
  function ShuffledDeck(seed: nat): seq<Card>
  {
    LcgShuffle(seed, AllCards(), CARDS_PER_DECK - 1)
  }

  /** Every step is a swap, so the shuffle keeps the multiset of cards. */
  lemma {:induction false} LcgShuffleMultiset(state: nat, s: seq<Card>, i: nat)
    requires i < |s|
    ensures |LcgShuffle(state, s, i)| == |s|
    ensures multiset(LcgShuffle(state, s, i)) == multiset(s)
    decreases i
  {
    if i > 0 {
      var next := LcgStep(state);
      SwapMultiset(s, i, next % (i + 1));
      LcgShuffleMultiset(next, Swap(s, i, next % (i + 1)), i - 1);
    }
  }

  /** Every seed deals a permutation of the 52 cards. */
  lemma ShuffledDeckIsPermutation(seed: nat)
    ensures IsPermutation(ShuffledDeck(seed))
  {
    LcgShuffleMultiset(seed, AllCards(), CARDS_PER_DECK - 1);
  }

  /** `shuffled_deck_from_seed`: Fisher-Yates over the standard deck, driven by the LCG. */
  method ShuffledDeckFromSeed(seed: nat) returns (deck: seq<Card>)
    requires seed < 0x1_0000_0000
    ensures deck == ShuffledDeck(seed)
    ensures IsPermutation(deck)
  {
    var standard := StandardDeck();
    var cards := new Card[CARDS_PER_DECK](k requires 0 <= k < CARDS_PER_DECK => standard[k]);
    assert cards[..] == standard;
    var state: nat := seed;
    var i := cards.Length - 1;
    while i >= 1
      invariant 0 <= i < cards.Length
      invariant LcgShuffle(state, cards[..], i) == ShuffledDeck(seed)
    {
      ghost var prev := cards[..];
      state := LcgStep(state);
      var r := state % (i + 1);
      cards[i], cards[r] := cards[r], cards[i];
      assert cards[..] == Swap(prev, i, r);
      i := i - 1;
    }
    deck := cards[..];
    ShuffledDeckIsPermutation(seed);
  }

  // ---------------------------------------------------------------------
  // Properties checked by the tests of card.rs

  /** Construction and projection are inverse: the index determines suit and rank and back. */
  lemma CardIndexRoundTrip(c: Card)
    ensures NewCard(CardSuit(c), CardRank(c)) == c
    ensures FromIndex(Index(c)) == c
  {
  }

  /** The two-character name determines the card. */
  lemma ShortStrInjective(c1: Card, c2: Card)
    requires ShortStr(c1) == ShortStr(c2)
    ensures c1 == c2
  {
    assert RankChar(CardRank(c1)) == ShortStr(c1)[0] == ShortStr(c2)[0] == RankChar(CardRank(c2));
    assert SuitShortChar(CardSuit(c1)) == ShortStr(c1)[1] == ShortStr(c2)[1] == SuitShortChar(CardSuit(c2));
    CardIndexRoundTrip(c1);
    CardIndexRoundTrip(c2);
  }

  lemma ShortStrExamples()
    ensures ShortStr(NewCard(Hearts, Ace)) == "AH"
    ensures ShortStr(NewCard(Diamonds, Ten)) == "TD"
    ensures ShortStr(NewCard(Spades, King)) == "KS"
    ensures ShortStr(NewCard(Clubs, Seven)) == "7C"
  {
  }

  lemma RunRuleExamples()
    ensures IsOneLowerOppositeColor(NewCard(Spades, Seven), NewCard(Hearts, Eight))
    ensures !IsOneLowerOppositeColor(NewCard(Hearts, Seven), NewCard(Hearts, Eight))
  {
  }
}
