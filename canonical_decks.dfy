/**
 * Fixed 52-card deals: the deck in suit-major order Clubs, Diamonds,
 * Hearts, Spades, and a deal built to meet the "locally unplayable"
 * conditions of de Ruiter and Kortsmit, with the check of those conditions.
 */
module CanonicalDecks {
  import opened Cards

  const DECK_LEN: nat := 52

  /** The suit order of this module, which is not the encoding's order. */
  const SUIT_RANK_SUITS: seq<Suit> := [Clubs, Diamonds, Hearts, Spades]

  /** The `e`-th card of the suit-major, rank-minor enumeration. */
  function SuitRankCard(e: nat): (c: Card)
    requires e < DECK_LEN
    ensures CardSuit(c) == SUIT_RANK_SUITS[e / NUM_RANKS] && CardRank(c) == RANK_ALL[e % NUM_RANKS]
  {
    NewCard(SUIT_RANK_SUITS[e / NUM_RANKS], RANK_ALL[e % NUM_RANKS])
  }

  /** Where a card stands in that enumeration. */
  function SuitRankPosition(c: Card): (e: nat)
    ensures e < DECK_LEN && SuitRankCard(e) == c
  {
    var r := c % NUM_RANKS;
    var e := match CardSuit(c)
      case Clubs => r
      case Diamonds => NUM_RANKS + r
      case Hearts => 2 * NUM_RANKS + r
      case Spades => 3 * NUM_RANKS + r;
    assert SuitRankCard(e) == c by {
      NewCardIndex(SuitValue(SUIT_RANK_SUITS[e / NUM_RANKS]), e % NUM_RANKS);
    }
    e
  }

  /** The deck in suit-major, rank-minor order. */
  function SuitRankOrder(): (d: seq<Card>)
    ensures |d| == DECK_LEN
  {
    seq(DECK_LEN, e requires 0 <= e < DECK_LEN => SuitRankCard(e))
  }

  /** `standard_deck_suit_rank`: fills the deck suit by suit, rank by rank. */
  method StandardDeckSuitRank() returns (deck: seq<Card>)
    ensures deck == SuitRankOrder()
    ensures IsPermutation(deck)
  {
    var cards := new Card[DECK_LEN];
    for si := 0 to |SUIT_RANK_SUITS|
      invariant EnumeratedUpTo(cards[..], si * NUM_RANKS)
    {
      EnumerateSuit(cards, si);
    }
    deck := cards[..];
    assert EnumeratedUpTo(deck, DECK_LEN);
    SuitRankOrderIsPermutation();
  }

  /** The inner loop of `standard_deck_suit_rank`: the thirteen ranks of the `si`-th suit. */
  method EnumerateSuit(cards: array<Card>, si: nat)
    requires si < |SUIT_RANK_SUITS| && EnumeratedUpTo(cards[..], si * NUM_RANKS)
    modifies cards
    ensures EnumeratedUpTo(cards[..], (si + 1) * NUM_RANKS)
  {
    for ri := 0 to NUM_RANKS
      invariant EnumeratedUpTo(cards[..], si * NUM_RANKS + ri)
    {
      var i := si * NUM_RANKS + ri;
      SuitRankStep(si, ri);
      EnumerateNext(cards[..], i, NewCard(SUIT_RANK_SUITS[si], RANK_ALL[ri]));
      cards[i] := NewCard(SUIT_RANK_SUITS[si], RANK_ALL[ri]);
    }
  }

  /** The first `i` entries of `s` follow the suit-major enumeration. */
  ghost predicate EnumeratedUpTo(s: seq<Card>, i: nat)
  {
    |s| == DECK_LEN && i <= DECK_LEN && forall k :: 0 <= k < i ==> s[k] == SuitRankCard(k)
  }

  lemma EnumerateNext(s: seq<Card>, i: nat, c: Card)
    requires EnumeratedUpTo(s, i) && i < DECK_LEN && c == SuitRankCard(i)
    ensures EnumeratedUpTo(s[i := c], i + 1)
  {
  }

  /** The enumeration's entry at `si * 13 + ri` is rank `ri` of suit `si`. */
  lemma SuitRankStep(si: nat, ri: nat)
    requires si < |SUIT_RANK_SUITS| && ri < NUM_RANKS
    ensures SuitRankCard(si * NUM_RANKS + ri) == NewCard(SUIT_RANK_SUITS[si], RANK_ALL[ri])
  {
    var e := si * NUM_RANKS + ri;
    assert e / NUM_RANKS == si && e % NUM_RANKS == ri;
  }

  /** The enumeration lists every card once. */
  lemma SuitRankOrderIsPermutation()
    ensures IsPermutation(SuitRankOrder())
  {
    var d := SuitRankOrder();
    forall i, j | 0 <= i < j < |d| ensures d[i] != d[j] {
      if d[i] == d[j] {
        SuitRankInjective(i, j);
      }
    }
    DistinctIsPermutation(d);
  }

  lemma SuitRankInjective(i: nat, j: nat)
    requires i < DECK_LEN && j < DECK_LEN && SuitRankCard(i) == SuitRankCard(j)
    ensures i == j
  {
    var c := SuitRankCard(i);
    assert SuitValue(CardSuit(c)) == c / NUM_RANKS;
    assert RankValue(CardRank(c)) == c % NUM_RANKS;
    assert i / NUM_RANKS == j / NUM_RANKS;
    assert i % NUM_RANKS == j % NUM_RANKS;
  }

  // ---------------------------------------------------------------------
  // Accessible positions and the forced cards

  /**
   * The positions of the seven face-up tableau cards under column-major
   * dealing: column c's top is at T(c+1) - 1, T(n) = n(n+1)/2.
   */
  function AccessibleTableauIndices(): (r: seq<nat>)
    ensures |r| == 7
    ensures forall c :: 0 <= c < 7 ==> r[c] == (c + 1) * (c + 2) / 2 - 1
  {
    [0, 2, 5, 9, 14, 20, 27]
  }

  /**
   * The stock positions whose cards can reach the top of the waste when
   * dealing three at a time: every third card from deck index 30.
   */
  function AccessibleStockIndices(): (r: seq<nat>)
    ensures |r| == 8
    ensures forall i :: 0 <= i < 8 ==> r[i] == 28 + 3 * i + 2
  {
    [30, 33, 36, 39, 42, 45, 48, 51]
  }

  /** An assignment of a card to a fixed deck position. */
  datatype ForcedCard = ForcedCard(index: nat, suit: Suit, rank: Rank)

  /** The seven tableau tops, then the eight stock-accessible cards: all ranks odd and two apart. */
  const FORCED: seq<ForcedCard> := [
    ForcedCard(0, Clubs, Five), ForcedCard(2, Clubs, Seven), ForcedCard(5, Clubs, Nine),
    ForcedCard(9, Clubs, Jack), ForcedCard(14, Spades, Five), ForcedCard(20, Spades, Seven),
    ForcedCard(27, Spades, Nine),
    ForcedCard(30, Clubs, Three), ForcedCard(33, Spades, Three), ForcedCard(36, Diamonds, Seven),
    ForcedCard(39, Hearts, Seven), ForcedCard(42, Diamonds, Jack), ForcedCard(45, Hearts, Jack),
    ForcedCard(48, Diamonds, King), ForcedCard(51, Hearts, King)]

  function ForcedCardOf(f: ForcedCard): Card
  {
    NewCard(f.suit, f.rank)
  }

  /** The positions reserved for forced cards, in table order. */
  function ForcedIndices(): (r: seq<nat>)
    ensures |r| == |FORCED| && forall k :: 0 <= k < |FORCED| ==> r[k] == FORCED[k].index
  {
    seq(|FORCED|, k requires 0 <= k < |FORCED| => FORCED[k].index)
  }

  /** `is_forced_card`: some entry of the table has this suit and rank. */
  predicate IsForcedCard(suit: Suit, rank: Rank, forced: seq<ForcedCard>)
  {
    exists k :: 0 <= k < |forced| && forced[k].suit == suit && forced[k].rank == rank
  }

  /** `is_forced_index`. */
  predicate IsForcedIndex(idx: nat, forcedIndices: seq<nat>)
  {
    idx in forcedIndices
  }

  /** The reserved positions are exactly the accessible ones, in increasing order. */
  lemma ForcedAreAccessible()
    ensures ForcedIndices() == AccessibleTableauIndices() + AccessibleStockIndices()
    ensures forall k :: 0 <= k < |FORCED| ==> FORCED[k].index < DECK_LEN
    ensures forall k, l :: 0 <= k < l < |FORCED| ==> FORCED[k].index < FORCED[l].index
  {
  }

  /** No card is forced twice. */
  lemma ForcedCardsDistinct()
    ensures Distinct(ForcedCards())
  {
    ForcedCardValues();
    var d := ForcedCards();
    assert forall k :: 0 <= k < |d| ==> ForcedSlot(d[k]) == k;
  }

  /** Where a forced card stands in the table: an inverse that makes the table injective. */
  ghost function ForcedSlot(c: int): int
  {
    if c == 17 then 0 else if c == 19 then 1 else if c == 21 then 2 else if c == 23 then 3
    else if c == 30 then 4 else if c == 32 then 5 else if c == 34 then 6 else if c == 15 then 7
    else if c == 28 then 8 else if c == 45 then 9 else if c == 6 then 10 else if c == 49 then 11
    else if c == 10 then 12 else if c == 51 then 13 else if c == 12 then 14 else 15
  }

  // The two tables written out as disjunctions, which the solver can evaluate.

  ghost predicate ForcedPosition(p: int)
  {
    p == 0 || p == 2 || p == 5 || p == 9 || p == 14 || p == 20 || p == 27 || p == 30
    || p == 33 || p == 36 || p == 39 || p == 42 || p == 45 || p == 48 || p == 51
  }

  ghost predicate ForcedValue(c: int)
  {
    c == 17 || c == 19 || c == 21 || c == 23 || c == 30 || c == 32 || c == 34 || c == 15
    || c == 28 || c == 45 || c == 6 || c == 49 || c == 10 || c == 51 || c == 12
  }

  lemma ForcedPositionIff(p: nat)
    ensures IsForcedIndex(p, ForcedIndices()) <==> ForcedPosition(p)
  {
    ForcedAreAccessible();
  }

  /** The forced cards, as card indices. */
  function ForcedCards(): (r: seq<Card>)
    ensures |r| == |FORCED| && forall k :: 0 <= k < |FORCED| ==> r[k] == ForcedCardOf(FORCED[k])
  {
    seq(|FORCED|, k requires 0 <= k < |FORCED| => ForcedCardOf(FORCED[k]))
  }

  lemma ForcedCardValues()
    ensures ForcedCards() == [17, 19, 21, 23, 30, 32, 34, 15, 28, 45, 6, 49, 10, 51, 12]
  {
  }

  lemma ForcedValueIff(suit: Suit, rank: Rank)
    ensures IsForcedCard(suit, rank, FORCED) <==> ForcedValue(NewCard(suit, rank))
    ensures IsForcedCard(suit, rank, FORCED) <==> NewCard(suit, rank) in ForcedCards()
  {
    ForcedCardValues();
    if ForcedValue(NewCard(suit, rank)) {
      ForcedValueListed(suit, rank);
    }
    if IsForcedCard(suit, rank, FORCED) {
      ListedIsForcedValue(suit, rank);
    }
  }

  lemma ForcedValueListed(suit: Suit, rank: Rank)
    requires ForcedValue(NewCard(suit, rank))
    ensures IsForcedCard(suit, rank, FORCED)
  {
    var c := NewCard(suit, rank);
    ForcedCardValues();
    assert c in ForcedCards();
    var k :| 0 <= k < |FORCED| && ForcedCards()[k] == c;
    assert CardSuit(ForcedCardOf(FORCED[k])) == FORCED[k].suit;
    assert CardRank(ForcedCardOf(FORCED[k])) == FORCED[k].rank;
  }

  lemma ListedIsForcedValue(suit: Suit, rank: Rank)
    requires IsForcedCard(suit, rank, FORCED)
    ensures ForcedValue(NewCard(suit, rank))
  {
    var k :| 0 <= k < |FORCED| && FORCED[k].suit == suit && FORCED[k].rank == rank;
    ForcedCardValues();
    assert NewCard(suit, rank) in ForcedCards();
  }

  /** The number of positions below `n` that are not reserved. */
  ghost function FreePositions(n: nat): nat
  {
    if n == 0 then 0 else FreePositions(n - 1) + (if ForcedPosition(n - 1) then 0 else 1)
  }

  /** The number of unforced cards among the first `n` ranks of the `si`-th suit. */
  ghost function FreeInSuit(si: nat, n: nat): nat
    requires si < |SUIT_RANK_SUITS| && n <= NUM_RANKS
  {
    if n == 0 then 0
    else FreeInSuit(si, n - 1) + (if ForcedValue(SuitValue(SUIT_RANK_SUITS[si]) * NUM_RANKS + n - 1) then 0 else 1)
  }

  /** The number of unforced cards enumerated before suit `si`, rank `ri`. */
  ghost function FreeCards(si: nat, ri: nat): nat
    requires si <= |SUIT_RANK_SUITS| && ri <= NUM_RANKS && (si == |SUIT_RANK_SUITS| ==> ri == 0)
  {
    if si == |SUIT_RANK_SUITS| then FreeCards(si - 1, NUM_RANKS)
    else if si == 0 then FreeInSuit(si, ri)
    else FreeCards(si - 1, NUM_RANKS) + FreeInSuit(si, ri)
  }

  lemma CountFreePositions()
    ensures FreePositions(DECK_LEN) == 37
  {
    assert FreePositions(5) == 3;
    assert FreePositions(10) == 6;
    assert FreePositions(15) == 10;
    assert FreePositions(20) == 15;
    assert FreePositions(25) == 19;
    assert FreePositions(30) == 23;
    assert FreePositions(35) == 26;
    assert FreePositions(40) == 29;
    assert FreePositions(45) == 33;
    assert FreePositions(50) == 36;
  }

  lemma CountFreeCards()
    ensures FreeCards(|SUIT_RANK_SUITS|, 0) == 37
  {
    assert FreeInSuit(0, 6) == 4;
    assert FreeInSuit(0, 13) == 8;
    assert FreeInSuit(1, 6) == 6;
    assert FreeInSuit(1, 13) == 10;
    assert FreeInSuit(2, 6) == 6;
    assert FreeInSuit(2, 13) == 10;
    assert FreeInSuit(3, 6) == 4;
    assert FreeInSuit(3, 13) == 9;
  }

  // ---------------------------------------------------------------------
  // The filler

  /**
   * What the filler keeps: the forced cards stand at their positions, every
   * free position below `deckPos` holds an unforced card enumerated before
   * suit `si`, rank `ri`, in enumeration order, and as many free positions
   * lie below `deckPos` as unforced cards have been enumerated, unless the
   * positions ran out.
   */
  ghost predicate Filling(cs: seq<Card>, deckPos: nat, si: nat, ri: nat)
  {
    && |cs| == DECK_LEN && deckPos <= DECK_LEN
    && si <= |SUIT_RANK_SUITS| && ri <= NUM_RANKS && (si == |SUIT_RANK_SUITS| ==> ri == 0)
    && ForcedInPlace(cs)
    && FreeFilled(cs, deckPos, si * NUM_RANKS + ri)
    && (deckPos == DECK_LEN || FreePositions(deckPos) == FreeCards(si, ri))
  }

  ghost predicate ForcedInPlace(cs: seq<Card>)
  {
    forall k :: 0 <= k < |FORCED| ==> FORCED[k].index < |cs| && cs[FORCED[k].index] == ForcedCardOf(FORCED[k])
  }

  /** The free positions below `deckPos` hold unforced cards enumerated before `bound`, in order. */
  ghost predicate FreeFilled(cs: seq<Card>, deckPos: nat, bound: nat)
  {
    && deckPos <= |cs|
    && (forall p :: 0 <= p < deckPos && p !in ForcedIndices() ==>
          cs[p] !in ForcedCards() && SuitRankPosition(cs[p]) < bound)
    && (forall p, q :: 0 <= p < q < deckPos && p !in ForcedIndices() && q !in ForcedIndices() ==>
          SuitRankPosition(cs[p]) < SuitRankPosition(cs[q]))
  }

  lemma PlaceKeepsForced(cs: seq<Card>, deckPos: nat, c: Card)
    requires ForcedInPlace(cs) && deckPos < |cs| && deckPos !in ForcedIndices()
    ensures ForcedInPlace(cs[deckPos := c])
  {
    forall k | 0 <= k < |FORCED|
      ensures FORCED[k].index != deckPos
    {
      assert ForcedIndices()[k] == FORCED[k].index;
    }
  }

  lemma PlaceKeepsFree(cs: seq<Card>, deckPos: nat, bound: nat, c: Card)
    requires FreeFilled(cs, deckPos, bound) && deckPos < |cs| && deckPos !in ForcedIndices()
    requires c !in ForcedCards() && SuitRankPosition(c) == bound
    ensures FreeFilled(cs[deckPos := c], deckPos + 1, bound + 1)
  {
  }

  /** The `ri`-th rank of the `si`-th suit of the enumeration. */
  lemma EnumeratedCard(si: nat, ri: nat)
    requires si < |SUIT_RANK_SUITS| && ri < NUM_RANKS
    ensures NewCard(SUIT_RANK_SUITS[si], RANK_ALL[ri]) == SuitValue(SUIT_RANK_SUITS[si]) * NUM_RANKS + ri
    ensures SuitRankPosition(NewCard(SUIT_RANK_SUITS[si], RANK_ALL[ri])) == si * NUM_RANKS + ri
  {
    assert RankValue(RankFromU8(ri)) == ri;
    var e := si * NUM_RANKS + ri;
    assert e / NUM_RANKS == si && e % NUM_RANKS == ri;
    var c := NewCard(SUIT_RANK_SUITS[si], RANK_ALL[ri]);
    assert SuitRankCard(e) == c;
    SuitRankInjective(SuitRankPosition(c), e);
  }

  lemma FillStart(cs: seq<Card>)
    requires |cs| == DECK_LEN
    requires forall k :: 0 <= k < |FORCED| ==> FORCED[k].index < DECK_LEN && cs[FORCED[k].index] == ForcedCardOf(FORCED[k])
    ensures Filling(cs, 0, 0, 0)
  {
  }

  lemma FillSkipCard(cs: seq<Card>, deckPos: nat, si: nat, ri: nat)
    requires Filling(cs, deckPos, si, ri) && si < |SUIT_RANK_SUITS| && ri < NUM_RANKS
    requires IsForcedCard(SUIT_RANK_SUITS[si], RANK_ALL[ri], FORCED)
    ensures Filling(cs, deckPos, si, ri + 1)
  {
    ForcedValueIff(SUIT_RANK_SUITS[si], RANK_ALL[ri]);
    EnumeratedCard(si, ri);
    assert FreeInSuit(si, ri + 1) == FreeInSuit(si, ri);
  }

  lemma FillSkipPosition(cs: seq<Card>, deckPos: nat, si: nat, ri: nat)
    requires Filling(cs, deckPos, si, ri) && deckPos < DECK_LEN && deckPos in ForcedIndices()
    ensures Filling(cs, deckPos + 1, si, ri)
  {
    ForcedPositionIff(deckPos);
    assert FreePositions(deckPos + 1) == FreePositions(deckPos);
  }

  lemma FillPlace(cs: seq<Card>, deckPos: nat, si: nat, ri: nat)
    requires Filling(cs, deckPos, si, ri) && si < |SUIT_RANK_SUITS| && ri < NUM_RANKS
    requires deckPos < DECK_LEN && deckPos !in ForcedIndices()
    requires !IsForcedCard(SUIT_RANK_SUITS[si], RANK_ALL[ri], FORCED)
    ensures Filling(cs[deckPos := NewCard(SUIT_RANK_SUITS[si], RANK_ALL[ri])], deckPos + 1, si, ri + 1)
  {
    var c := NewCard(SUIT_RANK_SUITS[si], RANK_ALL[ri]);
    ForcedValueIff(SUIT_RANK_SUITS[si], RANK_ALL[ri]);
    EnumeratedCard(si, ri);
    PlaceKeepsForced(cs, deckPos, c);
    PlaceKeepsFree(cs, deckPos, si * NUM_RANKS + ri, c);
    assert FreeInSuit(si, ri + 1) == FreeInSuit(si, ri) + 1;
    ForcedPositionIff(deckPos);
    assert FreePositions(deckPos + 1) == FreePositions(deckPos) + 1;
  }

  lemma FillNextSuit(cs: seq<Card>, deckPos: nat, si: nat, ri: nat)
    requires Filling(cs, deckPos, si, ri) && si < |SUIT_RANK_SUITS|
    requires ri == NUM_RANKS || deckPos == DECK_LEN
    ensures Filling(cs, deckPos, si + 1, 0)
  {
  }

  /** More free positions lie below `b` than below `a` when one lies between. */
  lemma {:induction false} FreePositionsGrow(a: nat, b: nat, p: nat)
    requires a <= p < b && !ForcedPosition(p)
    ensures FreePositions(a) < FreePositions(b)
    decreases b
  {
    if p < b - 1 {
      FreePositionsGrow(a, b - 1, p);
    } else {
      FreePositionsMonotone(a, b - 1);
    }
  }

  lemma {:induction false} FreePositionsMonotone(a: nat, b: nat)
    requires a <= b
    ensures FreePositions(a) <= FreePositions(b)
    decreases b
  {
    if a < b {
      FreePositionsMonotone(a, b - 1);
    }
  }

  /** When the enumeration is done, every free position has been filled. */
  lemma FillComplete(cs: seq<Card>, deckPos: nat)
    requires Filling(cs, deckPos, |SUIT_RANK_SUITS|, 0)
    ensures forall p :: 0 <= p < DECK_LEN && p !in ForcedIndices() ==> p < deckPos
  {
    forall p | 0 <= p < DECK_LEN && p !in ForcedIndices()
      ensures p < deckPos
    {
      if deckPos <= p {
        ForcedPositionIff(p);
        CountFreePositions();
        CountFreeCards();
        FreePositionsGrow(deckPos, DECK_LEN, p);
      }
    }
  }

  /** and then no card repeats. */
  lemma FillDistinct(cs: seq<Card>, deckPos: nat)
    requires Filling(cs, deckPos, |SUIT_RANK_SUITS|, 0)
    ensures Distinct(cs)
  {
    FillComplete(cs, deckPos);
    forall i, j | 0 <= i < j < DECK_LEN
      ensures cs[i] != cs[j]
    {
      FilledApart(cs, deckPos, i, j);
    }
  }

  lemma FilledApart(cs: seq<Card>, deckPos: nat, i: nat, j: nat)
    requires Filling(cs, deckPos, |SUIT_RANK_SUITS|, 0) && i < j < DECK_LEN
    requires forall p :: 0 <= p < DECK_LEN && p !in ForcedIndices() ==> p < deckPos
    ensures cs[i] != cs[j]
  {
    if i in ForcedIndices() && j in ForcedIndices() {
      ForcedApart(cs, i, j);
    } else if i in ForcedIndices() {
      ForcedFreeApart(cs, deckPos, i, j);
    } else if j in ForcedIndices() {
      ForcedFreeApart(cs, deckPos, j, i);
    } else {
      assert SuitRankPosition(cs[i]) < SuitRankPosition(cs[j]);
    }
  }

  /** Two reserved positions hold different cards, the table being injective. */
  lemma ForcedApart(cs: seq<Card>, i: nat, j: nat)
    requires ForcedInPlace(cs) && i in ForcedIndices() && j in ForcedIndices() && i != j
    ensures i < |cs| && j < |cs| && cs[i] != cs[j]
  {
    var k :| 0 <= k < |FORCED| && ForcedIndices()[k] == i;
    var l :| 0 <= l < |FORCED| && ForcedIndices()[l] == j;
    ForcedCardsDistinct();
    assert ForcedCards()[k] != ForcedCards()[l];
  }

  /** A reserved position and a filled free one hold different cards. */
  lemma ForcedFreeApart(cs: seq<Card>, deckPos: nat, i: nat, j: nat)
    requires ForcedInPlace(cs) && FreeFilled(cs, deckPos, DECK_LEN)
    requires i in ForcedIndices() && j !in ForcedIndices() && j < deckPos
    ensures i < |cs| && cs[i] != cs[j]
  {
    var k :| 0 <= k < |FORCED| && ForcedIndices()[k] == i;
    assert cs[i] == ForcedCards()[k];
  }

  /** Once the enumeration is done, the deck is the forced cards plus the others in order. */
  lemma FillResult(cs: seq<Card>, deckPos: nat)
    requires Filling(cs, deckPos, |SUIT_RANK_SUITS|, 0)
    ensures IsPermutation(cs)
    ensures forall p :: 0 <= p < DECK_LEN && !IsForcedIndex(p, ForcedIndices()) ==>
      !IsForcedCard(CardSuit(cs[p]), CardRank(cs[p]), FORCED)
    ensures forall p, q :: 0 <= p < q < DECK_LEN && !IsForcedIndex(p, ForcedIndices()) && !IsForcedIndex(q, ForcedIndices()) ==>
      SuitRankPosition(cs[p]) < SuitRankPosition(cs[q])
  {
    FillDistinct(cs, deckPos);
    DistinctIsPermutation(cs);
    FillComplete(cs, deckPos);
    forall p | 0 <= p < DECK_LEN && !IsForcedIndex(p, ForcedIndices())
      ensures !IsForcedCard(CardSuit(cs[p]), CardRank(cs[p]), FORCED)
    {
      CardIndexRoundTrip(cs[p]);
      ForcedValueIff(CardSuit(cs[p]), CardRank(cs[p]));
    }
  }

  /**
   * `unplayable_deck_by_local_conditions`: the forced cards at their
   * positions, then the other 37 cards, in suit-major order, into the free
   * positions from the bottom of the deck up.
   */
  method UnplayableDeckByLocalConditions() returns (deck: seq<Card>)
    ensures |deck| == DECK_LEN && IsPermutation(deck)
    ensures forall k :: 0 <= k < |FORCED| ==> deck[FORCED[k].index] == ForcedCardOf(FORCED[k])
    ensures forall p :: 0 <= p < DECK_LEN && !IsForcedIndex(p, ForcedIndices()) ==>
      !IsForcedCard(CardSuit(deck[p]), CardRank(deck[p]), FORCED)
    ensures forall p, q :: 0 <= p < q < DECK_LEN && !IsForcedIndex(p, ForcedIndices()) && !IsForcedIndex(q, ForcedIndices()) ==>
      SuitRankPosition(deck[p]) < SuitRankPosition(deck[q])
  {
    var fi := CollectForcedIndices();
    var cards := PlaceForced();
    var deckPos := 0;
    FillStart(cards[..]);
    for si := 0 to |SUIT_RANK_SUITS|
      invariant Filling(cards[..], deckPos, si, 0)
    {
      deckPos := FillSuit(cards, fi, deckPos, si);
    }
    deck := cards[..];
    FillResult(deck, deckPos);
  }

  /** The table's positions, copied out one by one. */
  method CollectForcedIndices() returns (fi: seq<nat>)
    ensures fi == ForcedIndices()
  {
    var forcedIndices := new nat[|FORCED|](_ => 0);
    var i := 0;
    while i < |FORCED|
      invariant 0 <= i <= |FORCED|
      invariant forall k :: 0 <= k < i ==> forcedIndices[k] == FORCED[k].index
    {
      forcedIndices[i] := FORCED[i].index;
      i := i + 1;
    }
    fi := forcedIndices[..];
  }

  /** A deck of Aces of Clubs with the forced cards written in. */
  method PlaceForced() returns (cards: array<Card>)
    ensures fresh(cards) && cards.Length == DECK_LEN && ForcedInPlace(cards[..])
  {
    cards := new Card[DECK_LEN](_ => NewCard(Clubs, Ace));
    ForcedAreAccessible();
    for k := 0 to |FORCED|
      invariant forall l :: 0 <= l < k ==> cards[FORCED[l].index] == ForcedCardOf(FORCED[l])
    {
      cards[FORCED[k].index] := ForcedCardOf(FORCED[k]);
    }
  }

  /** One pass of the filler's rank loop, over the `si`-th suit. */
  method FillSuit(cards: array<Card>, fi: seq<nat>, deckPos0: nat, si: nat) returns (deckPos: nat)
    requires fi == ForcedIndices() && si < |SUIT_RANK_SUITS| && Filling(cards[..], deckPos0, si, 0)
    modifies cards
    ensures Filling(cards[..], deckPos, si + 1, 0)
  {
    deckPos := deckPos0;
    for ri := 0 to NUM_RANKS
      invariant Filling(cards[..], deckPos, si, ri)
    {
      var stop;
      deckPos, stop := FillRank(cards, fi, deckPos, si, ri);
      if stop {
        return;
      }
    }
    FillNextSuit(cards[..], deckPos, si, NUM_RANKS);
  }

  /**
   * The body of the rank loop: `continue` past a forced card, skip reserved
   * positions, `break` (`stop`) when the deck is full, else place the card.
   */
  method FillRank(cards: array<Card>, fi: seq<nat>, deckPos0: nat, si: nat, ri: nat) returns (deckPos: nat, stop: bool)
    requires fi == ForcedIndices() && si < |SUIT_RANK_SUITS| && ri < NUM_RANKS
    requires Filling(cards[..], deckPos0, si, ri)
    modifies cards
    ensures stop ==> Filling(cards[..], deckPos, si + 1, 0)
    ensures !stop ==> Filling(cards[..], deckPos, si, ri + 1)
  {
    deckPos, stop := deckPos0, false;
    var s, r := SUIT_RANK_SUITS[si], RANK_ALL[ri];
    if IsForcedCard(s, r, FORCED) {
      FillSkipCard(cards[..], deckPos, si, ri);
      return;
    }
    deckPos := SkipReserved(cards, fi, deckPos, si, ri);
    if deckPos >= DECK_LEN {
      FillNextSuit(cards[..], deckPos, si, ri);
      stop := true;
      return;
    }
    PlaceCard(cards, deckPos, si, ri);
    deckPos := deckPos + 1;
  }

  /** The filler's inner `while`: step over reserved positions. */
  method SkipReserved(cards: array<Card>, fi: seq<nat>, deckPos0: nat, si: nat, ri: nat) returns (deckPos: nat)
    requires fi == ForcedIndices() && Filling(cards[..], deckPos0, si, ri)
    ensures Filling(cards[..], deckPos, si, ri)
    ensures deckPos < DECK_LEN ==> deckPos !in ForcedIndices()
  {
    deckPos := deckPos0;
    while deckPos < DECK_LEN && IsForcedIndex(deckPos, fi)
      invariant Filling(cards[..], deckPos, si, ri)
      decreases DECK_LEN - deckPos
    {
      FillSkipPosition(cards[..], deckPos, si, ri);
      deckPos := deckPos + 1;
    }
  }

  /** Write the `ri`-th card of the `si`-th suit at a free position. */
  method PlaceCard(cards: array<Card>, deckPos: nat, si: nat, ri: nat)
    requires Filling(cards[..], deckPos, si, ri) && si < |SUIT_RANK_SUITS| && ri < NUM_RANKS
    requires deckPos < DECK_LEN && deckPos !in ForcedIndices()
    requires !IsForcedCard(SUIT_RANK_SUITS[si], RANK_ALL[ri], FORCED)
    modifies cards
    ensures Filling(cards[..], deckPos + 1, si, ri + 1)
  {
    FillPlace(cards[..], deckPos, si, ri);
    cards[deckPos] := NewCard(SUIT_RANK_SUITS[si], RANK_ALL[ri]);
  }

  // ---------------------------------------------------------------------
  // The local unplayability check

  /** `is_red`: Hearts and Diamonds. */
  predicate IsRed(s: Suit)
  {
    s == Hearts || s == Diamonds
  }

  predicate OppositeColour(a: Card, b: Card)
  {
    IsRed(CardSuit(a)) != IsRed(CardSuit(b))
  }

  /** `rank_val`: the rank's discriminant, Ace 0 to King 12. */
  function RankVal(r: Rank): int
  {
    RankValue(r)
  }

  function Abs(x: int): nat
  {
    if x < 0 then -x else x
  }

  /** The cards at the accessible tableau positions. */
  function TableauCards(deck: seq<Card>): (r: seq<Card>)
    requires |deck| == DECK_LEN
    ensures |r| == 7 && forall i :: 0 <= i < 7 ==> r[i] == deck[AccessibleTableauIndices()[i]]
  {
    seq(7, i requires 0 <= i < 7 => deck[AccessibleTableauIndices()[i]])
  }

  /** The cards at the accessible stock positions. */
  function StockCards(deck: seq<Card>): (r: seq<Card>)
    requires |deck| == DECK_LEN
    ensures |r| == 8 && forall i :: 0 <= i < 8 ==> r[i] == deck[AccessibleStockIndices()[i]]
  {
    seq(8, i requires 0 <= i < 8 => deck[AccessibleStockIndices()[i]])
  }

  /** Conditions 1 and 2: no accessible Ace. */
  predicate NoAccessibleAce(tab: seq<Card>, stock: seq<Card>)
  {
    && (forall i :: 0 <= i < |tab| ==> CardRank(tab[i]) != Ace)
    && (forall i :: 0 <= i < |stock| ==> CardRank(stock[i]) != Ace)
  }

  /** Condition 3: no two tableau cards of opposite colour one rank apart. */
  predicate NoTableauPair(tab: seq<Card>)
  {
    forall i, j :: 0 <= i < j < |tab| && OppositeColour(tab[i], tab[j]) ==>
      Abs(RankVal(CardRank(tab[i])) - RankVal(CardRank(tab[j]))) != 1
  }

  /** Condition 4: no stock card of opposite colour one rank below a tableau card. */
  predicate NoStockOnTableau(stock: seq<Card>, tab: seq<Card>)
  {
    forall i, j :: 0 <= i < |stock| && 0 <= j < |tab| && OppositeColour(stock[i], tab[j]) ==>
      RankVal(CardRank(stock[i])) + 1 != RankVal(CardRank(tab[j]))
  }

  /** The four local conditions of de Ruiter and Kortsmit on the accessible cards. */
  predicate LocallyUnplayable(deck: seq<Card>)
    requires |deck| == DECK_LEN
  {
    var tab, stock := TableauCards(deck), StockCards(deck);
    NoAccessibleAce(tab, stock) && NoTableauPair(tab) && NoStockOnTableau(stock, tab)
  }

  /** `is_unplayable_by_local_conditions`: the four checks, each returning early on a violation. */
  method IsUnplayableByLocalConditions(deck: seq<Card>) returns (ok: bool)
    requires |deck| == DECK_LEN
    ensures ok <==> LocallyUnplayable(deck)
  {
    var tabCards, stockCards := AccessibleCards(deck);
    ok := CheckNoAce(tabCards, stockCards);
    if !ok {
      return;
    }
    ok := CheckTableauPairs(tabCards);
    if !ok {
      return;
    }
    ok := CheckStockOnTableau(stockCards, tabCards);
  }

  /** The copies `tab_cards` and `stock_cards` of the accessible cards. */
  method AccessibleCards(deck: seq<Card>) returns (tab: seq<Card>, stock: seq<Card>)
    requires |deck| == DECK_LEN
    ensures tab == TableauCards(deck) && stock == StockCards(deck)
  {
    var tabIdxs, stockIdxs := AccessibleTableauIndices(), AccessibleStockIndices();
    var tabCards := new Card[7](_ => deck[0]);
    for i := 0 to 7
      invariant forall k :: 0 <= k < i ==> tabCards[k] == deck[tabIdxs[k]]
    {
      tabCards[i] := deck[tabIdxs[i]];
    }
    tab := tabCards[..];
    var stockCards := new Card[8](_ => deck[0]);
    for i := 0 to 8
      invariant forall k :: 0 <= k < i ==> stockCards[k] == deck[stockIdxs[k]]
    {
      stockCards[i] := deck[stockIdxs[i]];
    }
    stock := stockCards[..];
  }

  /** Checks 1 and 2, over the tableau cards chained with the stock cards. */
  method CheckNoAce(tab: seq<Card>, stock: seq<Card>) returns (ok: bool)
    ensures ok <==> NoAccessibleAce(tab, stock)
  {
    var chained := tab + stock;
    for i := 0 to |chained|
      invariant forall k :: 0 <= k < i ==> CardRank(chained[k]) != Ace
    {
      if CardRank(chained[i]) == Ace {
        return false;
      }
    }
    assert forall i :: 0 <= i < |tab| ==> tab[i] == chained[i];
    assert forall i :: 0 <= i < |stock| ==> stock[i] == chained[|tab| + i];
    return true;
  }

  /** Check 3, over all pairs `i < j`. */
  method CheckTableauPairs(tab: seq<Card>) returns (ok: bool)
    ensures ok <==> NoTableauPair(tab)
  {
    for i := 0 to |tab|
      invariant forall a, b :: 0 <= a < i && a < b < |tab| && OppositeColour(tab[a], tab[b]) ==>
        Abs(RankVal(CardRank(tab[a])) - RankVal(CardRank(tab[b]))) != 1
    {
      for j := i + 1 to |tab|
        invariant forall b :: i < b < j && OppositeColour(tab[i], tab[b]) ==>
          Abs(RankVal(CardRank(tab[i])) - RankVal(CardRank(tab[b]))) != 1
      {
        var a, b := tab[i], tab[j];
        if OppositeColour(a, b) {
          var da, db := RankVal(CardRank(a)), RankVal(CardRank(b));
          if Abs(da - db) == 1 {
            return false;
          }
        }
      }
    }
    return true;
  }

  /** Check 4, over every stock card against every tableau card. */
  method CheckStockOnTableau(stock: seq<Card>, tab: seq<Card>) returns (ok: bool)
    ensures ok <==> NoStockOnTableau(stock, tab)
  {
    for i := 0 to |stock|
      invariant forall a, b :: 0 <= a < i && 0 <= b < |tab| && OppositeColour(stock[a], tab[b]) ==>
        RankVal(CardRank(stock[a])) + 1 != RankVal(CardRank(tab[b]))
    {
      for j := 0 to |tab|
        invariant forall b :: 0 <= b < j && OppositeColour(stock[i], tab[b]) ==>
          RankVal(CardRank(stock[i])) + 1 != RankVal(CardRank(tab[b]))
      {
        var sc, tc := stock[i], tab[j];
        if OppositeColour(sc, tc) {
          var rs, rt := RankVal(CardRank(sc)), RankVal(CardRank(tc));
          if rs + 1 == rt {
            return false;
          }
        }
      }
    }
    return true;
  }

  /** Any deck carrying the forced cards at their positions meets the conditions. */
  lemma ForcedDeckIsUnplayable(deck: seq<Card>)
    requires |deck| == DECK_LEN
    requires forall k :: 0 <= k < |FORCED| ==> deck[FORCED[k].index] == ForcedCardOf(FORCED[k])
    ensures LocallyUnplayable(deck)
  {
    ForcedTableauAndStock(deck);
    ForcedCardsMeetConditions();
  }

  lemma ForcedTableauAndStock(deck: seq<Card>)
    requires |deck| == DECK_LEN
    requires forall k :: 0 <= k < |FORCED| ==> deck[FORCED[k].index] == ForcedCardOf(FORCED[k])
    ensures TableauCards(deck) == [17, 19, 21, 23, 30, 32, 34]
    ensures StockCards(deck) == [15, 28, 45, 6, 49, 10, 51, 12]
  {
    ForcedAreAccessible();
    ForcedCardValues();
    ForcedTableau(deck);
    ForcedStock(deck);
  }

  lemma ForcedTableau(deck: seq<Card>)
    requires |deck| == DECK_LEN
    requires forall k :: 0 <= k < |FORCED| ==> deck[ForcedIndices()[k]] == ForcedCards()[k]
    requires ForcedIndices()[..7] == AccessibleTableauIndices()
    ensures TableauCards(deck) == ForcedCards()[..7]
  {
    forall i | 0 <= i < 7 ensures TableauCards(deck)[i] == ForcedCards()[i] {
      assert AccessibleTableauIndices()[i] == ForcedIndices()[i];
    }
  }

  lemma ForcedStock(deck: seq<Card>)
    requires |deck| == DECK_LEN
    requires forall k :: 0 <= k < |FORCED| ==> deck[ForcedIndices()[k]] == ForcedCards()[k]
    requires ForcedIndices()[7..] == AccessibleStockIndices()
    ensures StockCards(deck) == ForcedCards()[7..]
  {
    forall i | 0 <= i < 8 ensures StockCards(deck)[i] == ForcedCards()[7 + i] {
      assert AccessibleStockIndices()[i] == ForcedIndices()[7 + i];
    }
  }

  /**
   * Tableau 5C 7C 9C JC 5S 7S 9S; stock 3C 3S 7D 7H JD JH KD KH. Every rank
   * is odd and at least Three, so none is an Ace and no two are one apart.
   */
  lemma ForcedCardsMeetConditions()
    ensures NoAccessibleAce([17, 19, 21, 23, 30, 32, 34], [15, 28, 45, 6, 49, 10, 51, 12])
    ensures NoTableauPair([17, 19, 21, 23, 30, 32, 34])
    ensures NoStockOnTableau([15, 28, 45, 6, 49, 10, 51, 12], [17, 19, 21, 23, 30, 32, 34])
  {
    OddRanks([17, 19, 21, 23, 30, 32, 34]);
    OddRanks([15, 28, 45, 6, 49, 10, 51, 12]);
    OddRanksMeetConditions([17, 19, 21, 23, 30, 32, 34], [15, 28, 45, 6, 49, 10, 51, 12]);
  }

  /** Cards whose ranks are all Three, Five, ..., King meet the four conditions. */
  lemma OddRanksMeetConditions(tab: seq<Card>, stock: seq<Card>)
    requires forall i :: 0 <= i < |tab| ==> RankVal(CardRank(tab[i])) % 2 == 0 && RankVal(CardRank(tab[i])) >= 2
    requires forall i :: 0 <= i < |stock| ==> RankVal(CardRank(stock[i])) % 2 == 0 && RankVal(CardRank(stock[i])) >= 2
    ensures NoAccessibleAce(tab, stock) && NoTableauPair(tab) && NoStockOnTableau(stock, tab)
  {
    forall i, j | 0 <= i < j < |tab|
      ensures Abs(RankVal(CardRank(tab[i])) - RankVal(CardRank(tab[j]))) != 1
    {
      EvenApart(RankVal(CardRank(tab[i])), RankVal(CardRank(tab[j])));
    }
    forall i, j | 0 <= i < |stock| && 0 <= j < |tab|
      ensures RankVal(CardRank(stock[i])) + 1 != RankVal(CardRank(tab[j]))
    {
      EvenApart(RankVal(CardRank(stock[i])), RankVal(CardRank(tab[j])));
    }
  }

  lemma EvenApart(x: int, y: int)
    requires x % 2 == 0 && y % 2 == 0
    ensures Abs(x - y) != 1 && x + 1 != y
  {
  }

  /** Each listed card's rank is Three, Five, ..., King: an even discriminant of at least 2. */
  lemma OddRanks(cs: seq<Card>)
    requires cs == [17, 19, 21, 23, 30, 32, 34] || cs == [15, 28, 45, 6, 49, 10, 51, 12]
    ensures forall i :: 0 <= i < |cs| ==> RankVal(CardRank(cs[i])) % 2 == 0 && RankVal(CardRank(cs[i])) >= 2
  {
    forall i | 0 <= i < |cs|
      ensures RankVal(CardRank(cs[i])) % 2 == 0 && RankVal(CardRank(cs[i])) >= 2
    {
      assert RankValue(RankFromU8(cs[i] % NUM_RANKS)) == cs[i] % NUM_RANKS;
      assert cs[i] % NUM_RANKS in {2, 4, 6, 8, 10, 12};
    }
  }

  /**
   * `canonical_unplayable_deck`: the constructed deck, a permutation that
   * meets the four local conditions.
   */
  method CanonicalUnplayableDeck() returns (deck: seq<Card>)
    ensures |deck| == DECK_LEN && IsPermutation(deck)
    ensures LocallyUnplayable(deck)
  {
    deck := UnplayableDeckByLocalConditions();
    ForcedDeckIsUnplayable(deck);
  }

  /** `canonical_easy_win_deck`: for now the suit-major ordered deck. */
  method CanonicalEasyWinDeck() returns (deck: seq<Card>)
    ensures deck == SuitRankOrder() && IsPermutation(deck)
  {
    deck := StandardDeckSuitRank();
  }

  /** `canonical_unsolvable_but_playable_deck`: for now the same ordered deck. */
  method CanonicalUnsolvableButPlayableDeck() returns (deck: seq<Card>)
    ensures deck == SuitRankOrder() && IsPermutation(deck)
  {
    deck := StandardDeckSuitRank();
  }
}
