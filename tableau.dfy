/**
 * The Klondike position: fixed-capacity stock and waste piles, seven
 * columns with a face-down prefix, and four foundation counters.
 *
 * `Pile`, `Column` and `Tableau` are plain `Copy` values in tableau.rs and
 * are only changed through a unique mutable borrow, so an in-place update
 * `x.push(c)` is modelled as `x := x.Push(c)`. Each pile keeps its whole
 * storage array: `cards[..len]` is live and the slots above `len` keep
 * whatever was written there last.
 */
module Tableaus {
  import opened Wrappers
  import opened Cards

  const NUM_COLS: nat := 7
  const NUM_FOUNDATIONS: nat := 4
  const MAX_STOCK: nat := 24
  const MAX_WASTE: nat := 24
  const MAX_COL: nat := 19

  /** A fixed-capacity stack; index 0 is the bottom, `len - 1` the top. */
  datatype Pile = Pile(cards: seq<Card>, len: nat)
  {
    predicate Valid()
    {
      len <= |cards|
    }

    /** The live cards, bottom to top (`iter`). */
    function Live(): seq<Card>
      requires Valid()
    {
      cards[..len]
    }

    function IsEmpty(): (b: bool)
      ensures Valid() ==> (b <==> Live() == [])
    {
      len == 0
    }

    function Top(): (r: Option<Card>)
      requires Valid()
      ensures r.None? <==> len == 0
      ensures r.Some? ==> r.value == Live()[len - 1]
    {
      if len == 0 then None else Some(cards[len - 1])
    }

    /** `Pile::push` asserts that the pile is not full. */
    function Push(card: Card): (p: Pile)
      requires Valid() && len < |cards|
      ensures p.Valid() && |p.cards| == |cards| && p.len == len + 1
      ensures p.Live() == Live() + [card] && p.Top() == Some(card)
      ensures p.cards[len + 1..] == cards[len + 1..]
    {
      Pile(cards[len := card], len + 1)
    }

    /** `pop`: `None` on an empty pile, otherwise the top card; storage is untouched. */
    function Pop(): (r: (Option<Card>, Pile))
      requires Valid()
      ensures r.1.Valid() && r.1.cards == cards && r.0 == Top()
      ensures len == 0 ==> r.1 == this
      ensures len > 0 ==> r.1.len == len - 1 && r.1.Live() + [r.0.value] == Live()
    {
      if len == 0 then (None, this) else (Some(cards[len - 1]), Pile(cards, len - 1))
    }
  }

  function NewPile(capacity: nat): (p: Pile)
    ensures p.Valid() && |p.cards| == capacity && p.Live() == []
  {
    Pile(seq(capacity, _ => 0), 0)
  }

  /** A column: the first `numFaceDown` cards from the bottom are face down. */
  datatype Column = Column(cards: seq<Card>, len: nat, numFaceDown: nat)
  {
    predicate Valid()
    {
      len <= |cards|
    }

    /** All live cards, bottom to top (`iter_all`). */
    function Live(): seq<Card>
      requires Valid()
    {
      cards[..len]
    }

    function IsEmpty(): (b: bool)
      ensures Valid() ==> (b <==> Live() == [])
    {
      len == 0
    }

    /** `num_face_up`, a saturating difference. */
    function NumFaceUp(): (n: nat)
      ensures n <= len
      ensures numFaceDown <= len ==> n + numFaceDown == len
    {
      if len >= numFaceDown then len - numFaceDown else 0
    }

    function Top(): (r: Option<Card>)
      requires Valid()
      ensures r.None? <==> len == 0
      ensures r.Some? ==> r.value == Live()[len - 1]
    {
      if len == 0 then None else Some(cards[len - 1])
    }

    /** `iter_face_up`; its slice panics when `numFaceDown > len`. */
    function FaceUp(): (s: seq<Card>)
      requires Valid() && numFaceDown <= len
      ensures |s| == NumFaceUp() && Live() == Live()[..numFaceDown] + s
    {
      cards[numFaceDown..len]
    }

    /** `Column::push` asserts that the column is not full. */
    function Push(card: Card, faceDown: bool): (c: Column)
      requires Valid() && len < |cards|
      ensures c.Valid() && |c.cards| == |cards| && c.len == len + 1
      ensures c.Live() == Live() + [card] && c.Top() == Some(card)
      ensures c.numFaceDown == if faceDown then numFaceDown + 1 else numFaceDown
    {
      Column(cards[len := card], len + 1, if faceDown then numFaceDown + 1 else numFaceDown)
    }
  }

  function NewColumn(capacity: nat): (c: Column)
    ensures c.Valid() && |c.cards| == capacity && c.Live() == [] && c.numFaceDown == 0
  {
    Column(seq(capacity, _ => 0), 0, 0)
  }

  /** Stock, waste, seven columns and the foundations (0 = empty .. 13 = King). */
  datatype Tableau = Tableau(stock: Pile, waste: Pile, columns: seq<Column>, foundations: seq<nat>)
  {
    /** The shape of `Tableau`'s fixed-size arrays and `u8` counters. */
    predicate Valid()
    {
      && |stock.cards| == MAX_STOCK && stock.Valid()
      && |waste.cards| == MAX_WASTE && waste.Valid()
      && |columns| == NUM_COLS
      && (forall i :: 0 <= i < |columns| ==> |columns[i].cards| == MAX_COL && columns[i].Valid())
      && |foundations| == NUM_FOUNDATIONS
      && (forall i :: 0 <= i < |foundations| ==> foundations[i] < 256)
    }
  }

  function NewEmpty(): (t: Tableau)
    ensures t.Valid()
  {
    Tableau(NewPile(MAX_STOCK), NewPile(MAX_WASTE), seq(NUM_COLS, _ => NewColumn(MAX_COL)), [0, 0, 0, 0])
  }

  predicate IsWin(t: Tableau)
    requires t.Valid()
  {
    forall i :: 0 <= i < NUM_FOUNDATIONS ==> t.foundations[i] == 13
  }

  // ---------------------------------------------------------------------
  // Counting cards

  function ColumnLengths(cols: seq<Column>): nat
  {
    if cols == [] then 0 else ColumnLengths(cols[..|cols| - 1]) + cols[|cols| - 1].len
  }

  function Sum(xs: seq<nat>): nat
  {
    if xs == [] then 0 else Sum(xs[..|xs| - 1]) + xs[|xs| - 1]
  }

  /** `s` back to front. */
  function Reversed(s: seq<Card>): (r: seq<Card>)
    ensures |r| == |s| && forall i :: 0 <= i < |s| ==> r[i] == s[|s| - 1 - i]
  {
    seq(|s|, i requires 0 <= i < |s| => s[|s| - 1 - i])
  }

  /** Reversing twice gives the sequence back. */
  lemma ReversedReversed(s: seq<Card>)
    ensures Reversed(Reversed(s)) == s
  {
  }

  /** Reversal turns a concatenation around. */
  lemma ReversedConcat(a: seq<Card>, b: seq<Card>)
    ensures Reversed(a + b) == Reversed(b) + Reversed(a)
  {
  }

  /** The last card comes first. */
  lemma ReversedLast(s: seq<Card>)
    requires s != []
    ensures Reversed(s) == [s[|s| - 1]] + Reversed(s[..|s| - 1])
  {
  }

  lemma {:induction false} ReversedMultiset(s: seq<Card>)
    ensures multiset(Reversed(s)) == multiset(s)
  {
    if s != [] {
      ReversedMultiset(s[..|s| - 1]);
      ReversedLast(s);
      assert s == s[..|s| - 1] + [s[|s| - 1]];
    }
  }

  /** Cards in stock, waste and columns, plus one per rank on each foundation. */
  function CardCount(t: Tableau): nat
  {
    t.stock.len + t.waste.len + ColumnLengths(t.columns) + Sum(t.foundations)
  }

  /** `total_cards`: the `u16` sum, returned truncated to `u8`. */
  method TotalCards(t: Tableau) returns (n: nat)
    requires t.Valid()
    ensures n == CardCount(t) % 256
  {
    var sum := 0;
    sum := sum + t.stock.len;
    sum := sum + t.waste.len;
    for i := 0 to NUM_COLS
      invariant sum == t.stock.len + t.waste.len + ColumnLengths(t.columns[..i])
    {
      assert t.columns[..i + 1][..i] == t.columns[..i];
      sum := sum + t.columns[i].len;
    }
    assert t.columns[..NUM_COLS] == t.columns;
    for i := 0 to NUM_FOUNDATIONS
      invariant sum == t.stock.len + t.waste.len + ColumnLengths(t.columns) + Sum(t.foundations[..i])
    {
      assert t.foundations[..i + 1][..i] == t.foundations[..i];
      sum := sum + t.foundations[i];
    }
    assert t.foundations[..NUM_FOUNDATIONS] == t.foundations;
    n := sum % 256;
  }

  // ---------------------------------------------------------------------
  // Flattening

  /** The cards of a foundation with `count` cards: Ace up to rank `count - 1`. */
  function FoundationPile(suitIdx: nat, count: nat): (s: seq<Card>)
    requires suitIdx < NUM_SUITS && count <= NUM_RANKS
    ensures |s| == count
  {
    seq(count, r requires 0 <= r < count => NewCard(SUIT_ALL[suitIdx], RankFromU8(r)))
  }

  /** Foundation `suitIdx` holds its suit's cards in rank order from the Ace. */
  lemma FoundationPileCards(suitIdx: nat, count: nat)
    requires suitIdx < NUM_SUITS && count <= NUM_RANKS
    ensures forall r :: 0 <= r < count ==> FoundationPile(suitIdx, count)[r] == NewCard(SUIT_ALL[suitIdx], RANK_ALL[r])
  {
  }

  predicate FoundationsBounded(fs: seq<nat>)
  {
    |fs| <= NUM_FOUNDATIONS && forall i :: 0 <= i < |fs| ==> fs[i] <= NUM_RANKS
  }

  function FoundationsFlat(fs: seq<nat>): (s: seq<Card>)
    requires FoundationsBounded(fs)
    ensures |s| == Sum(fs)
  {
    if fs == [] then []
    else FoundationsFlat(fs[..|fs| - 1]) + FoundationPile(|fs| - 1, fs[|fs| - 1])
  }

  predicate ColumnsValid(cols: seq<Column>)
  {
    forall i :: 0 <= i < |cols| ==> cols[i].Valid()
  }

  function ColumnsFlat(cols: seq<Column>): (s: seq<Card>)
    requires ColumnsValid(cols)
    ensures |s| == ColumnLengths(cols)
  {
    if cols == [] then [] else ColumnsFlat(cols[..|cols| - 1]) + cols[|cols| - 1].Live()
  }

  /** Columns in storage order, then stock and waste bottom to top, then foundations suit by suit. */
  function Flat(t: Tableau): (s: seq<Card>)
    requires t.Valid() && FoundationsBounded(t.foundations)
    ensures |s| == CardCount(t)
  {
    ColumnsFlat(t.columns) + t.stock.Live() + t.waste.Live() + FoundationsFlat(t.foundations)
  }

  /**
   * `flatten_cards`. It indexes a 52-slot array and ends with a debug
   * assertion that exactly 52 cards were collected; `Rank::from_u8` panics on a
   * foundation above 13.
   */
  method FlattenCards(t: Tableau) returns (out: seq<Card>)
    requires t.Valid() && FoundationsBounded(t.foundations)
    requires CardCount(t) == CARDS_PER_DECK
    ensures |out| == CARDS_PER_DECK && out == Flat(t)
  {
    // `out` is the prefix of `flatten_cards`'s 52-slot buffer written so far; `|out|` is its cursor `k`.
    out := [];
    // 1) columns, each in storage order
    for c := 0 to NUM_COLS
      invariant out == ColumnsFlat(t.columns[..c])
    {
      ColumnsFlatStep(t.columns, c);
      out := AppendLive(out, t.columns[c].cards, t.columns[c].len);
    }
    assert t.columns[..NUM_COLS] == t.columns;
    // 2) stock and 3) waste, bottom to top
    out := AppendLive(out, t.stock.cards, t.stock.len);
    out := AppendLive(out, t.waste.cards, t.waste.len);
    // 4) foundations, suit by suit from the Ace up
    out := AppendFoundations(out, t.foundations);
  }

  /** The foundation part of `flatten_cards`: for each suit, ranks Ace up to the count. */
  method AppendFoundations(out: seq<Card>, fs: seq<nat>) returns (r: seq<Card>)
    requires FoundationsBounded(fs)
    ensures r == out + FoundationsFlat(fs)
  {
    r := out;
    for s := 0 to |fs|
      invariant r == out + FoundationsFlat(fs[..s])
    {
      var count := fs[s];
      FoundationsFlatStep(fs, s);
      if count != 0 {
        r := AppendFoundationPile(r, s, count);
      } else {
        assert FoundationPile(s, 0) == [];
      }
    }
    assert fs[..|fs|] == fs;
  }

  /** The cards of one foundation, Ace up to rank `count - 1`. */
  method AppendFoundationPile(out: seq<Card>, s: nat, count: nat) returns (r: seq<Card>)
    requires s < NUM_SUITS && count <= NUM_RANKS
    ensures r == out + FoundationPile(s, count)
  {
    r := out;
    var suit := SUIT_ALL[s];
    for k := 0 to count
      invariant r == out + FoundationPile(s, k)
    {
      var card := NewCard(suit, RankFromU8(k));
      r := r + [card];
      assert FoundationPile(s, k + 1) == FoundationPile(s, k) + [card];
    }
  }

  /** The copy loop `for i in 0..len { out[k] = cards[i]; k += 1 }` shared by columns, stock and waste. */
  method AppendLive(out: seq<Card>, cards: seq<Card>, len: nat) returns (r: seq<Card>)
    requires len <= |cards|
    ensures r == out + cards[..len]
  {
    r := out;
    for i := 0 to len
      invariant r == out + cards[..i]
    {
      r := r + [cards[i]];
      assert cards[..i + 1] == cards[..i] + [cards[i]];
    }
  }

  lemma {:induction false} ColumnLengthsPrefix(cols: seq<Column>, n: nat)
    requires n <= |cols|
    ensures ColumnLengths(cols[..n]) <= ColumnLengths(cols)
    decreases |cols|
  {
    if n < |cols| {
      assert cols[..|cols| - 1][..n] == cols[..n];
      ColumnLengthsPrefix(cols[..|cols| - 1], n);
    } else {
      assert cols[..n] == cols;
    }
  }

  lemma {:induction false} SumPrefix(xs: seq<nat>, n: nat)
    requires n <= |xs|
    ensures Sum(xs[..n]) <= Sum(xs)
    decreases |xs|
  {
    if n < |xs| {
      assert xs[..|xs| - 1][..n] == xs[..n];
      SumPrefix(xs[..|xs| - 1], n);
    } else {
      assert xs[..n] == xs;
    }
  }

  // ---------------------------------------------------------------------
  // The initial deal

  /** Cards dealt before face-down round `r` (rounds 1..6 deal to columns r..6). */
  function DealRoundOffset(r: nat): nat
    requires 1 <= r <= NUM_COLS
  {
    if r == 1 then 0
    else if r == 2 then 6
    else if r == 3 then 11
    else if r == 4 then 15
    else if r == 5 then 18
    else if r == 6 then 20
    else 21
  }

  /** Deck position of the card that lands in slot `k` of column `c`. */
  function DealPosition(c: nat, k: nat): (i: nat)
    requires k <= c < NUM_COLS
    ensures k < c ==> i < 21
    ensures k == c ==> 21 <= i < 28
  {
    if k < c then DealRoundOffset(k + 1) + (NUM_COLS - 1 - c)
    else 21 + (NUM_COLS - 1 - c)
  }

  /** Column `c` after its first `n` cards of the deal (the last one, slot `c`, is face up). */
  function DealtColumn(deck: seq<Card>, c: nat, n: nat): (col: Column)
    requires |deck| == CARDS_PER_DECK && c < NUM_COLS && n <= c + 1
    ensures col.Valid() && |col.cards| == MAX_COL
  {
    Column(seq(MAX_COL, k requires 0 <= k < MAX_COL => if k < n then deck[DealPosition(c, k)] else 0),
           n, if n <= c then n else c)
  }

  /**
   * The position `deal_from_shuffled` builds: column `c` holds `c + 1` cards of
   * which `c` are face down, the stock holds the last 24 deck cards reversed so
   * that `deck[28]` is on top, and waste and foundations are empty.
   */
  function Deal(deck: seq<Card>): (t: Tableau)
    requires |deck| == CARDS_PER_DECK
    ensures t.Valid() && t.foundations == [0, 0, 0, 0] && FoundationsBounded(t.foundations)
  {
    Tableau(Pile(seq(MAX_STOCK, j requires 0 <= j < MAX_STOCK => deck[51 - j]), MAX_STOCK),
            NewPile(MAX_WASTE),
            seq(NUM_COLS, c requires 0 <= c < NUM_COLS => DealtColumn(deck, c, c + 1)),
            [0, 0, 0, 0])
  }

  lemma DealtColumnPush(deck: seq<Card>, c: nat, n: nat)
    requires |deck| == CARDS_PER_DECK && c < NUM_COLS && n <= c
    ensures DealtColumn(deck, c, n).len < MAX_COL
    ensures DealtColumn(deck, c, n).Push(deck[DealPosition(c, n)], n < c) == DealtColumn(deck, c, n + 1)
  {
    var a := DealtColumn(deck, c, n).Push(deck[DealPosition(c, n)], n < c);
    var b := DealtColumn(deck, c, n + 1);
    assert a.cards == b.cards;
  }

  /** Columns `c` after the face-down rounds before `roundStart` and, in round `roundStart`, the columns right of `col`. */
  ghost predicate FaceDownSoFar(deck: seq<Card>, cs: seq<Column>, roundStart: nat, col: int)
    requires |deck| == CARDS_PER_DECK && 1 <= roundStart <= NUM_COLS
  {
    |cs| == NUM_COLS && forall c :: 0 <= c < NUM_COLS ==>
      cs[c] == DealtColumn(deck, c, if c < roundStart then c else if c > col then roundStart else roundStart - 1)
  }

  /** Columns right of `col` have their face-up card, the others only their face-down cards. */
  ghost predicate FaceUpSoFar(deck: seq<Card>, cs: seq<Column>, col: int)
    requires |deck| == CARDS_PER_DECK
  {
    |cs| == NUM_COLS && forall c :: 0 <= c < NUM_COLS ==> cs[c] == DealtColumn(deck, c, if c > col then c + 1 else c)
  }

  /** `deal_from_shuffled` and its three dealing loops. */
  method DealFromShuffled(deck: seq<Card>) returns (t: Tableau)
    requires |deck| == CARDS_PER_DECK
    ensures t == Deal(deck)
  {
    t := NewEmpty();
    var idx := 0;
    // 1) six rounds of face-down cards, right to left
    var columns := DealFaceDownRounds(deck, t.columns);
    idx := 21;
    // 2) one face-up card on each column, right to left
    columns := DealFaceUpRow(deck, columns);
    idx := idx + NUM_COLS;
    t := t.(columns := columns);
    // 3) the remaining cards form the stock, next card to draw on top
    var remaining := if CARDS_PER_DECK >= idx then CARDS_PER_DECK - idx else 0;
    var stock := FillStock(deck, idx, remaining);
    t := t.(stock := stock);
    assert t.columns == Deal(deck).columns;
  }

  /** Loop 1 of `deal_from_shuffled`: round `r` deals one face-down card to each of columns 6 down to `r`. */
  method DealFaceDownRounds(deck: seq<Card>, start: seq<Column>) returns (cs: seq<Column>)
    requires |deck| == CARDS_PER_DECK && start == NewEmpty().columns
    ensures FaceUpSoFar(deck, cs, NUM_COLS - 1)
  {
    cs := start;
    forall c | 0 <= c < NUM_COLS ensures cs[c] == DealtColumn(deck, c, 0) {
      assert cs[c].cards == DealtColumn(deck, c, 0).cards;
    }
    var idx := 0;
    var roundStart := 1;
    while roundStart < NUM_COLS
      invariant 1 <= roundStart <= NUM_COLS && idx == DealRoundOffset(roundStart)
      invariant FaceDownSoFar(deck, cs, roundStart, NUM_COLS - 1)
    {
      var col := NUM_COLS - 1;
      while col >= roundStart
        invariant roundStart - 1 <= col <= NUM_COLS - 1
        invariant idx == DealRoundOffset(roundStart) + (NUM_COLS - 1 - col)
        invariant FaceDownSoFar(deck, cs, roundStart, col)
      {
        FaceDownStep(deck, cs, roundStart, col);
        cs := cs[col := cs[col].Push(deck[idx], true)];
        idx := idx + 1;
        col := col - 1;
      }
      FaceDownRoundDone(deck, cs, roundStart);
      roundStart := roundStart + 1;
    }
  }

  /** Loop 2 of `deal_from_shuffled`: `deck[21..28]` face up onto columns 6 down to 0. */
  method DealFaceUpRow(deck: seq<Card>, start: seq<Column>) returns (cs: seq<Column>)
    requires |deck| == CARDS_PER_DECK && FaceUpSoFar(deck, start, NUM_COLS - 1)
    ensures cs == Deal(deck).columns
  {
    cs := start;
    var idx := 21;
    var col := NUM_COLS - 1;
    while col >= 0
      invariant -1 <= col <= NUM_COLS - 1
      invariant idx == 21 + (NUM_COLS - 1 - col)
      invariant FaceUpSoFar(deck, cs, col)
    {
      FaceUpStep(deck, cs, col);
      cs := cs[col := cs[col].Push(deck[idx], false)];
      idx := idx + 1;
      col := col - 1;
    }
    FaceUpDone(deck, cs);
  }

  lemma FaceUpStep(deck: seq<Card>, cs: seq<Column>, col: nat)
    requires |deck| == CARDS_PER_DECK && col < NUM_COLS && FaceUpSoFar(deck, cs, col)
    ensures cs[col].len < MAX_COL && DealPosition(col, col) == 21 + (NUM_COLS - 1 - col)
    ensures FaceUpSoFar(deck, cs[col := cs[col].Push(deck[21 + (NUM_COLS - 1 - col)], false)], col - 1)
  {
    DealtColumnPush(deck, col, col);
  }

  lemma FaceUpDone(deck: seq<Card>, cs: seq<Column>)
    requires |deck| == CARDS_PER_DECK && FaceUpSoFar(deck, cs, -1)
    ensures cs == Deal(deck).columns
  {
  }

  /** Loop 3 of `deal_from_shuffled`: the stock gets `deck[idx..]` reversed, `deck[idx]` on top. */
  method FillStock(deck: seq<Card>, idx: nat, remaining: nat) returns (stock: Pile)
    requires |deck| == CARDS_PER_DECK && idx == 28 && remaining == MAX_STOCK
    ensures stock == Deal(deck).stock
  {
    stock := NewPile(MAX_STOCK).(len := remaining);
    for i := 0 to remaining
      invariant stock.len == MAX_STOCK && |stock.cards| == MAX_STOCK
      invariant forall j :: 0 <= j < MAX_STOCK ==> stock.cards[j] == if j >= MAX_STOCK - i then deck[51 - j] else 0
    {
      stock := stock.(cards := stock.cards[remaining - 1 - i := deck[idx + i]]);
    }
  }

  lemma ColumnsFlatStep(cs: seq<Column>, k: nat)
    requires k < |cs| && ColumnsValid(cs)
    ensures ColumnsValid(cs[..k]) && ColumnsValid(cs[..k + 1])
    ensures ColumnsFlat(cs[..k + 1]) == ColumnsFlat(cs[..k]) + cs[k].Live()
  {
    assert cs[..k + 1][..k] == cs[..k];
  }

  lemma FoundationsFlatStep(fs: seq<nat>, k: nat)
    requires k < |fs| && FoundationsBounded(fs)
    ensures FoundationsBounded(fs[..k]) && FoundationsBounded(fs[..k + 1])
    ensures FoundationsFlat(fs[..k + 1]) == FoundationsFlat(fs[..k]) + FoundationPile(k, fs[k])
  {
    assert fs[..k + 1][..k] == fs[..k];
  }

  lemma ColumnLengthsSeven(cs: seq<Column>)
    requires |cs| == NUM_COLS
    ensures ColumnLengths(cs) == cs[0].len + cs[1].len + cs[2].len + cs[3].len + cs[4].len + cs[5].len + cs[6].len
  {
    assert cs[..1][..0] == cs[..0];
    assert ColumnLengths(cs[..1]) == ColumnLengths(cs[..0]) + cs[0].len;
    assert cs[..2][..1] == cs[..1];
    assert ColumnLengths(cs[..2]) == ColumnLengths(cs[..1]) + cs[1].len;
    assert cs[..3][..2] == cs[..2];
    assert ColumnLengths(cs[..3]) == ColumnLengths(cs[..2]) + cs[2].len;
    assert cs[..4][..3] == cs[..3];
    assert ColumnLengths(cs[..4]) == ColumnLengths(cs[..3]) + cs[3].len;
    assert cs[..5][..4] == cs[..4];
    assert ColumnLengths(cs[..5]) == ColumnLengths(cs[..4]) + cs[4].len;
    assert cs[..6][..5] == cs[..5];
    assert ColumnLengths(cs[..6]) == ColumnLengths(cs[..5]) + cs[5].len;
    assert cs[..7][..6] == cs[..6];
    assert ColumnLengths(cs[..7]) == ColumnLengths(cs[..6]) + cs[6].len;
    assert cs[..7] == cs;
  }

  lemma ColumnsFlatSeven(cs: seq<Column>)
    requires |cs| == NUM_COLS && ColumnsValid(cs)
    ensures ColumnsFlat(cs) == cs[0].Live() + cs[1].Live() + cs[2].Live() + cs[3].Live()
                               + cs[4].Live() + cs[5].Live() + cs[6].Live()
  {
    var l0, l1, l2, l3, l4, l5, l6 := cs[0].Live(), cs[1].Live(), cs[2].Live(), cs[3].Live(), cs[4].Live(), cs[5].Live(), cs[6].Live();
    ColumnsFlatStep(cs, 0);
    assert ColumnsFlat(cs[..1]) == l0;
    ColumnsFlatStep(cs, 1);
    assert ColumnsFlat(cs[..2]) == l0 + l1;
    ColumnsFlatStep(cs, 2);
    assert ColumnsFlat(cs[..3]) == l0 + l1 + l2;
    ColumnsFlatStep(cs, 3);
    assert ColumnsFlat(cs[..4]) == l0 + l1 + l2 + l3;
    ColumnsFlatStep(cs, 4);
    assert ColumnsFlat(cs[..5]) == l0 + l1 + l2 + l3 + l4;
    ColumnsFlatStep(cs, 5);
    assert ColumnsFlat(cs[..6]) == l0 + l1 + l2 + l3 + l4 + l5;
    ColumnsFlatStep(cs, 6);
    assert cs[..7] == cs;
  }

  lemma SumFour(fs: seq<nat>)
    requires |fs| == NUM_FOUNDATIONS
    ensures Sum(fs) == fs[0] + fs[1] + fs[2] + fs[3]
  {
    assert fs[..1][..0] == fs[..0];
    assert Sum(fs[..1]) == Sum(fs[..0]) + fs[0];
    assert fs[..2][..1] == fs[..1];
    assert Sum(fs[..2]) == Sum(fs[..1]) + fs[1];
    assert fs[..3][..2] == fs[..2];
    assert Sum(fs[..3]) == Sum(fs[..2]) + fs[2];
    assert fs[..4][..3] == fs[..3];
    assert Sum(fs[..4]) == Sum(fs[..3]) + fs[3];
    assert fs[..4] == fs;
  }

  lemma FoundationsFlatFour(fs: seq<nat>)
    requires |fs| == NUM_FOUNDATIONS && FoundationsBounded(fs)
    ensures FoundationsFlat(fs) == FoundationPile(0, fs[0]) + FoundationPile(1, fs[1])
                                   + FoundationPile(2, fs[2]) + FoundationPile(3, fs[3])
  {
    var l0, l1, l2, l3 := FoundationPile(0, fs[0]), FoundationPile(1, fs[1]), FoundationPile(2, fs[2]), FoundationPile(3, fs[3]);
    FoundationsFlatStep(fs, 0);
    assert FoundationsFlat(fs[..1]) == l0;
    FoundationsFlatStep(fs, 1);
    assert FoundationsFlat(fs[..2]) == l0 + l1;
    FoundationsFlatStep(fs, 2);
    assert FoundationsFlat(fs[..3]) == l0 + l1 + l2;
    FoundationsFlatStep(fs, 3);
    assert fs[..4] == fs;
  }

  // ---------------------------------------------------------------------
  // Properties of piles, the empty tableau and the deal

  /** Pushing then popping returns the pushed card and the same live contents. */
  lemma PushThenPop(p: Pile, card: Card)
    requires p.Valid() && p.len < |p.cards|
    ensures p.Push(card).Pop().0 == Some(card)
    ensures p.Push(card).Pop().1.Live() == p.Live()
  {
  }

  lemma NewEmptyIsEmpty()
    ensures CardCount(NewEmpty()) == 0 && !IsWin(NewEmpty())
    ensures forall c :: 0 <= c < NUM_COLS ==> NewEmpty().columns[c].len == 0 && NewEmpty().columns[c].numFaceDown == 0
  {
    ColumnLengthsSeven(NewEmpty().columns);
    SumFour(NewEmpty().foundations);
  }

  /** A tableau with every foundation at King counts all 52 cards there. */
  lemma WinCountsAllCards(t: Tableau)
    requires t.Valid() && IsWin(t)
    ensures Sum(t.foundations) == CARDS_PER_DECK
    ensures FoundationsBounded(t.foundations)
  {
    SumFour(t.foundations);
  }

  /** Five pushes onto an empty column: three face down, then "4D" and "5H" face up. */
  lemma ColumnCountsExample()
    ensures var c := NewColumn(MAX_COL)
          .Push(NewCard(Hearts, Ace), true).Push(NewCard(Clubs, Two), true)
          .Push(NewCard(Spades, Three), true).Push(NewCard(Diamonds, Four), false)
          .Push(NewCard(Hearts, Five), false);
        c.len == 5 && c.numFaceDown == 3 && c.NumFaceUp() == 2
        && ShortStr(c.FaceUp()[0]) == "4D" && ShortStr(c.FaceUp()[1]) == "5H"
  {
  }

  /** The deal's shape: column sizes, face-down counts, a full stock, empty waste and foundations. */
  lemma DealLayout(deck: seq<Card>)
    requires |deck| == CARDS_PER_DECK
    ensures var t := Deal(deck);
      && CardCount(t) == CARDS_PER_DECK
      && t.stock.len == MAX_STOCK && t.waste.len == 0 && t.foundations == [0, 0, 0, 0]
      && (forall c :: 0 <= c < NUM_COLS ==>
            t.columns[c].len == c + 1 && t.columns[c].numFaceDown == c && t.columns[c].NumFaceUp() == 1)
  {
    var t := Deal(deck);
    ColumnLengthsSeven(t.columns);
    SumFour(t.foundations);
  }

  /** Successive draws from the dealt stock yield `deck[28]`, `deck[29]`, ..., `deck[51]`. */
  lemma DealStockOrder(deck: seq<Card>)
    requires |deck| == CARDS_PER_DECK
    ensures forall j :: 0 <= j < MAX_STOCK ==> Deal(deck).stock.Live()[j] == deck[51 - j]
    ensures Deal(deck).stock.Top() == Some(deck[28])
  {
  }

  /** Each column's face-up card: columns are dealt right to left from `deck[21]`. */
  lemma DealFaceUpCards(deck: seq<Card>)
    requires |deck| == CARDS_PER_DECK
    ensures forall c :: 0 <= c < NUM_COLS ==> Deal(deck).columns[c].Top() == Some(deck[27 - c])
  {
  }

  /** Replacing one column changes the flattened columns by exactly that column's cards. */
  lemma {:induction false} ColumnsFlatUpdate(cs: seq<Column>, c: nat, col: Column)
    requires ColumnsValid(cs) && c < |cs| && col.Valid()
    ensures ColumnsValid(cs[c := col])
    ensures multiset(ColumnsFlat(cs[c := col])) + multiset(cs[c].Live())
         == multiset(ColumnsFlat(cs)) + multiset(col.Live())
    decreases |cs|
  {
    var n := |cs|;
    var cs' := cs[c := col];
    assert ColumnsValid(cs');
    var pre, pre' := cs[..n - 1], cs'[..n - 1];
    assert ColumnsValid(pre) && ColumnsValid(pre');
    var was, now := multiset(cs[c].Live()), multiset(col.Live());
    if c == n - 1 {
      assert pre' == pre;
      UnionSwap(multiset(ColumnsFlat(pre)), now, was);
    } else {
      assert pre' == pre[c := col];
      assert cs'[n - 1] == cs[n - 1];
      ColumnsFlatUpdate(pre, c, col);
      UnionCarry(multiset(ColumnsFlat(pre')), multiset(ColumnsFlat(pre)), multiset(cs[n - 1].Live()), was, now);
    }
  }

  lemma UnionSwap(base: multiset<Card>, a: multiset<Card>, b: multiset<Card>)
    ensures base + a + b == base + b + a
  {
  }

  lemma UnionCarry(x: multiset<Card>, y: multiset<Card>, l: multiset<Card>, a: multiset<Card>, b: multiset<Card>)
    requires x + a == y + b
    ensures x + l + a == y + l + b
  {
    assert x + l + a == (x + a) + l;
    assert y + l + b == (y + b) + l;
  }

  /** Pushing one deck card onto a column adds exactly that card to the flattened columns. */
  lemma ColumnsFlatPush(cs: seq<Column>, c: nat, card: Card, faceDown: bool)
    requires ColumnsValid(cs) && c < |cs| && cs[c].len < |cs[c].cards|
    ensures ColumnsValid(cs[c := cs[c].Push(card, faceDown)])
    ensures multiset(ColumnsFlat(cs[c := cs[c].Push(card, faceDown)])) == multiset(ColumnsFlat(cs)) + multiset{card}
  {
    var col := cs[c].Push(card, faceDown);
    ColumnsFlatUpdate(cs, c, col);
    assert col.Live() == cs[c].Live() + [card];
    UnionCancel(multiset(ColumnsFlat(cs[c := col])), multiset(ColumnsFlat(cs)), multiset(cs[c].Live()), multiset{card});
  }

  lemma UnionCancel(x: multiset<Card>, y: multiset<Card>, l: multiset<Card>, a: multiset<Card>)
    requires x + l == y + (l + a)
    ensures x == y + a
  {
    forall e: Card ensures x[e] == (y + a)[e] {
      assert (x + l)[e] == (y + (l + a))[e];
    }
  }

  /** The face-down rounds place exactly `deck[..21]`, by replaying their pushes. */
  lemma DealFaceDownFlat(deck: seq<Card>) returns (cs: seq<Column>)
    requires |deck| == CARDS_PER_DECK
    ensures FaceUpSoFar(deck, cs, NUM_COLS - 1) && ColumnsValid(cs)
    ensures multiset(ColumnsFlat(cs)) == multiset(deck[..21])
  {
    cs := NewEmpty().columns;
    forall c | 0 <= c < NUM_COLS ensures cs[c] == DealtColumn(deck, c, 0) {
      assert cs[c].cards == DealtColumn(deck, c, 0).cards;
    }
    ColumnsFlatEmpty(cs);
    var roundStart := 1;
    while roundStart < NUM_COLS
      invariant 1 <= roundStart <= NUM_COLS
      invariant FaceDownSoFar(deck, cs, roundStart, NUM_COLS - 1) && ColumnsValid(cs)
      invariant multiset(ColumnsFlat(cs)) == multiset(deck[..DealRoundOffset(roundStart)])
    {
      cs := DealRoundFlat(deck, cs, roundStart);
      roundStart := roundStart + 1;
    }
  }

  /** Face-down round `roundStart` places exactly the deck cards between its offset and the next. */
  lemma DealRoundFlat(deck: seq<Card>, cs0: seq<Column>, roundStart: nat) returns (cs: seq<Column>)
    requires |deck| == CARDS_PER_DECK && 1 <= roundStart < NUM_COLS
    requires FaceDownSoFar(deck, cs0, roundStart, NUM_COLS - 1) && ColumnsValid(cs0)
    requires multiset(ColumnsFlat(cs0)) == multiset(deck[..DealRoundOffset(roundStart)])
    ensures FaceDownSoFar(deck, cs, roundStart + 1, NUM_COLS - 1) && ColumnsValid(cs)
    ensures multiset(ColumnsFlat(cs)) == multiset(deck[..DealRoundOffset(roundStart + 1)])
  {
    cs := DealRoundFrom(deck, cs0, roundStart, NUM_COLS - 1, DealRoundOffset(roundStart));
    FaceDownRoundDone(deck, cs, roundStart);
  }

  /** The rest of round `roundStart`, from column `col` down to column `roundStart`; `idx` cards are dealt. */
  lemma {:induction false} DealRoundFrom(deck: seq<Card>, cs0: seq<Column>, roundStart: nat, col: int, idx: nat)
      returns (cs: seq<Column>)
    requires |deck| == CARDS_PER_DECK && 1 <= roundStart < NUM_COLS && roundStart - 1 <= col < NUM_COLS
    requires idx == DealRoundOffset(roundStart) + (NUM_COLS - 1 - col)
    requires FaceDownSoFar(deck, cs0, roundStart, col) && ColumnsValid(cs0)
    requires multiset(ColumnsFlat(cs0)) == multiset(deck[..idx])
    ensures FaceDownSoFar(deck, cs, roundStart, roundStart - 1) && ColumnsValid(cs)
    ensures multiset(ColumnsFlat(cs)) == multiset(deck[..DealRoundOffset(roundStart + 1)])
    decreases col
  {
    if col >= roundStart {
      var next := FaceDownPush(deck, cs0, roundStart, col, idx);
      cs := DealRoundFrom(deck, next, roundStart, col - 1, idx + 1);
    } else {
      DealRoundOffsetNext(roundStart);
      cs := cs0;
    }
  }

  /** One face-down push of round `roundStart` onto column `col`, the deck's card `idx`. */
  lemma FaceDownPush(deck: seq<Card>, cs: seq<Column>, roundStart: nat, col: nat, idx: nat) returns (next: seq<Column>)
    requires |deck| == CARDS_PER_DECK && 1 <= roundStart <= col < NUM_COLS
    requires idx == DealRoundOffset(roundStart) + (NUM_COLS - 1 - col)
    requires FaceDownSoFar(deck, cs, roundStart, col) && ColumnsValid(cs)
    requires multiset(ColumnsFlat(cs)) == multiset(deck[..idx])
    ensures FaceDownSoFar(deck, next, roundStart, col - 1) && ColumnsValid(next)
    ensures multiset(ColumnsFlat(next)) == multiset(deck[..idx + 1])
  {
    FaceDownStep(deck, cs, roundStart, col);
    DealOneFlat(deck, cs, col, idx, true);
    next := cs[col := cs[col].Push(deck[idx], true)];
  }

  /** Round `r` deals `7 - r` cards. */
  lemma DealRoundOffsetNext(r: nat)
    requires 1 <= r < NUM_COLS
    ensures DealRoundOffset(r + 1) == DealRoundOffset(r) + (NUM_COLS - r)
  {
  }

  /** One face-down push of round `roundStart` onto column `col`. */
  lemma FaceDownStep(deck: seq<Card>, cs: seq<Column>, roundStart: nat, col: nat)
    requires |deck| == CARDS_PER_DECK && 1 <= roundStart <= col < NUM_COLS
    requires FaceDownSoFar(deck, cs, roundStart, col)
    ensures DealtColumn(deck, col, roundStart - 1) == cs[col] && cs[col].len < |cs[col].cards|
    ensures FaceDownSoFar(deck, cs[col := cs[col].Push(deck[DealRoundOffset(roundStart) + (NUM_COLS - 1 - col)], true)], roundStart, col - 1)
  {
    DealtColumnPush(deck, col, roundStart - 1);
  }

  lemma FaceDownRoundDone(deck: seq<Card>, cs: seq<Column>, roundStart: nat)
    requires |deck| == CARDS_PER_DECK && 1 <= roundStart < NUM_COLS
    requires FaceDownSoFar(deck, cs, roundStart, roundStart - 1)
    ensures FaceDownSoFar(deck, cs, roundStart + 1, NUM_COLS - 1)
  {
  }

  lemma {:induction false} ColumnsFlatEmpty(cs: seq<Column>)
    requires ColumnsValid(cs) && forall c :: 0 <= c < |cs| ==> cs[c].len == 0
    ensures ColumnsFlat(cs) == []
  {
    if cs != [] {
      ColumnsFlatEmpty(cs[..|cs| - 1]);
    }
  }

  /** One push of the deal extends the dealt prefix of the deck by one card. */
  lemma DealOneFlat(deck: seq<Card>, cs: seq<Column>, col: nat, idx: nat, faceDown: bool)
    requires ColumnsValid(cs) && col < |cs| && cs[col].len < |cs[col].cards|
    requires idx < |deck| && multiset(ColumnsFlat(cs)) == multiset(deck[..idx])
    ensures ColumnsValid(cs[col := cs[col].Push(deck[idx], faceDown)])
    ensures multiset(ColumnsFlat(cs[col := cs[col].Push(deck[idx], faceDown)])) == multiset(deck[..idx + 1])
  {
    ColumnsFlatPush(cs, col, deck[idx], faceDown);
    assert deck[..idx + 1] == deck[..idx] + [deck[idx]];
  }

  /** The seven dealt columns hold exactly the first 28 deck cards. */
  lemma DealColumnsFlat(deck: seq<Card>)
    requires |deck| == CARDS_PER_DECK
    ensures multiset(ColumnsFlat(Deal(deck).columns)) == multiset(deck[..28])
  {
    var cs := DealFaceDownFlat(deck);
    FaceUpFlatFrom(deck, cs, NUM_COLS - 1);
  }

  /** The face-up row, from column `col` down to column 0, completes the multiset of the first 28 cards. */
  lemma {:induction false} FaceUpFlatFrom(deck: seq<Card>, cs: seq<Column>, col: int)
    requires |deck| == CARDS_PER_DECK && -1 <= col < NUM_COLS
    requires FaceUpSoFar(deck, cs, col) && ColumnsValid(cs)
    requires multiset(ColumnsFlat(cs)) == multiset(deck[..21 + (NUM_COLS - 1 - col)])
    ensures multiset(ColumnsFlat(Deal(deck).columns)) == multiset(deck[..28])
    decreases col + 1
  {
    if col < 0 {
      FaceUpDone(deck, cs);
    } else {
      var idx := 21 + (NUM_COLS - 1 - col);
      FaceUpStep(deck, cs, col);
      DealOneFlat(deck, cs, col, idx, false);
      FaceUpFlatFrom(deck, cs[col := cs[col].Push(deck[idx], false)], col - 1);
    }
  }

  /** The dealt stock is the last 24 deck cards in reverse order. */
  lemma DealStockIsReversedTail(deck: seq<Card>)
    requires |deck| == CARDS_PER_DECK
    ensures Deal(deck).stock.Live() == Reversed(deck[28..])
    ensures multiset(Deal(deck).stock.Live()) == multiset(deck[28..])
  {
    ReversedMultiset(deck[28..]);
  }

  /** The deal places every deck card exactly once across the columns and the stock. */
  lemma DealFlatIsDeck(deck: seq<Card>)
    requires |deck| == CARDS_PER_DECK
    ensures multiset(Flat(Deal(deck))) == multiset(deck)
  {
    var t := Deal(deck);
    DealColumnsFlat(deck);
    DealStockIsReversedTail(deck);
    FoundationsFlatFour(t.foundations);
    assert deck == deck[..28] + deck[28..];
  }

  /** Dealing a permutation leaves a position holding every card exactly once. */
  lemma DealIsPermutation(deck: seq<Card>)
    requires |deck| == CARDS_PER_DECK && IsPermutation(deck)
    ensures IsPermutation(Flat(Deal(deck)))
  {
    PermutationIsDistinct(deck);
    DealFlatIsDeck(deck);
  }

  /**
   * The layout test `deal_from_standard_deck_initial_klondike_layout` compares the
   * stock's top with the deck's last card. With the standard deck the top
   * is card 28 and the last card is 51, so that comparison fails.
   */
  lemma StandardDealStockTop()
    ensures Deal(AllCards()).stock.Top() == Some(28)
    ensures AllCards()[CARDS_PER_DECK - 1] == 51
    ensures Deal(AllCards()).stock.Top() != Some(AllCards()[CARDS_PER_DECK - 1])
  {
  }
}
