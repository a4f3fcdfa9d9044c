# klondike_chat in Dafny

A Dafny model of the core of `klondike_chat`, a solver for draw-three
Klondike with unlimited redeals. It covers the card encoding, the
fixed-capacity position, the rules engine, the position hash and game
history, and the bounded depth-first search. It also covers the deal
tooling that is pure logic: canonical decks, the PySol deck and seed
importer, and the win/loss counters.

The modules follow the source files:

| module | file | source |
|---|---|---|
| `Wrappers` | `wrappers.dfy` | `Option` and `Result` |
| `Cards` | `cards.dfy` | `20251212-src/card.rs` (the only card module there is; `src/` uses the same encoding) |
| `Tableaus` | `tableau.dfy` | `src/tableau.rs` |
| `Moves` | `moves.dfy` | `src/moves.rs` |
| `MovesLegacy` | `moves_legacy.dfy` | `20251212-src/moves.rs`, the earlier rules engine |
| `MoveInvariants` | `move_invariants.dfy` | the reachability invariant the rules engine keeps |
| `Game` | `game.dfy` | `src/game.rs` |
| `Search` | `search.dfy` | `src/search.rs` |
| `CanonicalDecks` | `canonical_decks.dfy` | `src/canonical_decks.rs` |
| `PysolText` | `pysol_text.dfy` | the `str` operations `src/pysol_decks.rs` relies on |
| `PysolDecks` | `pysol_decks.dfy` | the deck-list half of `src/pysol_decks.rs` |
| `PysolSeeds` | `pysol_seeds.dfy` | the seed half of `src/pysol_decks.rs` |
| `Statistics` | `stats.dfy` | `src/stats.rs` |

How the source's forms are modelled:

- A card is the subset type `0..51` of `nat`. Suit is `c / 13` and rank is
  `c % 13`.
- `Pile<N>`, `Column<N>` and `Tableau` are `Copy` value structs in the
  source. They are changed only through an exclusive `&mut`. They are
  modelled as datatypes whose fixed-capacity storage is a `seq`, and stale
  slots above `len` are kept. Each in-place update is a method or function
  that returns the updated value. Under an exclusive borrow that is the
  same thing.
- `GameState`, `Stats` and `LCRandom31` are updated through their own
  methods. They are classes, with `modifies` clauses on those methods.
- Loops become `while` or `for` loops with invariants. Each loop method is
  proved equal to a specification function, and the properties are proved
  about that function: `GenerateLegalMoves == LegalMoves`,
  `ApplyMove == Apply`, `ReplayFrom == Replay`, `HashTableau64` as an
  FNV-1a fold, `ParseBracketedDeckList == ParseDeckList`, the array
  Fisher-Yates `Shuffle == ShuffleOf`, and so on.
- `MoveInvariants.Sound` is the invariant every reachable position keeps:
  - at most 24 cards in stock and waste;
  - at most six face-down cards per column;
  - the face-up part of each column is a run;
  - a non-empty column shows a face-up card;
  - foundations hold at most 13 cards.

  From it follows that no generated move overflows a pile or panics.
- Properties the source states in its doc comments and tests are lemmas.
  These include:
  - card conservation;
  - the deal layout and stock order;
  - the auto-exposure rule;
  - the generated moves are exactly the legal ones;
  - the earlier and the current `apply` agree on generated moves;
  - dealing through the stock and redealing restores it;
  - the hash ignores stale slots;
  - the cache holds the replay of the move history;
  - the search's outcome is consistent, terminates and keeps its depth
    bound;
  - the canonical unplayable deck is a permutation meeting the local
    conditions;
  - the dump script's line parses back to its deck.

Where the source's comments and its code disagree, the model follows the
code:

- `deal_from_shuffled` stores the stock so that its top is `deck[28]`,
  as the code's own comment intends. The layout test's assertion
  (src/tableau.rs:430-433) expects `deck[51]`, so that test fails against
  the code; see "## Findings".
- `canonical_decks.rs` takes the face-up tableau cards to sit at deck
  positions 0, 2, 5, 9, 14, 20 and 27, which is dealing one column at a
  time.
  - `deal_from_shuffled` deals row by row, right to left. It puts the
    face-up cards at `deck[21..28]` (`Tableaus.DealFaceUpCards`).
  - So the "locally unplayable" deck is locally unplayable under the
    conditions as `canonical_decks.rs` states them
    (`CanonicalDecks.CanonicalUnplayableDeck`), not under the engine's own
    deal.
  - The stock positions 30, 33, ..., 51 do agree with the engine's stock
    order.

## Model

| member | source | states |
|---|---|---|
| `Cards.SuitValue` | 20251212-src/card.rs:25-33 | every suit's discriminant is below 4 |
| `Cards.RankValue` | 20251212-src/card.rs:35-55 | every rank's discriminant is below 13 |
| `Cards.SuitFromU8` | 20251212-src/card.rs:153-167 | the inverse of the suit discriminant on 0 to 3 |
| `Cards.RankFromU8` | 20251212-src/card.rs:199-222 | the inverse of the rank discriminant on 0 to 12 |
| `Cards.NewCard` | 20251212-src/card.rs:58-70 | the card built has the given suit and rank |
| `Cards.CardSuit` | 20251212-src/card.rs:89-93 | the suit whose discriminant is the index divided by 13 (a body with no contract of its own; `CardIndexRoundTrip` rebuilds the card from its suit and rank) |
| `Cards.CardRank` | 20251212-src/card.rs:95-99 | the rank whose discriminant is the index modulo 13 (a body with no contract of its own; `CardIndexRoundTrip` rebuilds the card from its suit and rank) |
| `Cards.FromIndex` | 20251212-src/card.rs:72-81 | the card built from an index below 52 has that index |
| `Cards.Index` | 20251212-src/card.rs:83-87 | below 52, and 13 times the suit's discriminant plus the rank's |
| `Cards.RankNumber` | 20251212-src/card.rs:101-105 | Ace counts 1 and King 13, so every rank number lies in 1 to 13 |
| `Cards.Color` | 20251212-src/card.rs:107-114 | `R` exactly for Hearts and Diamonds, `B` otherwise |
| `Cards.ShortStr` | 20251212-src/card.rs:116-135 | two characters: a rank letter out of `A23456789TJQK`, then a suit letter out of `HDCS` |
| `Cards.IsOneLowerOppositeColor` | 20251212-src/card.rs:230-240 | when `upper` may go on `lower`, their suits differ, `upper` is no King and `lower` no Ace |
| `Cards.DistinctIsPermutation` | 20251212-src/card.rs:360-374 | 52 cards of which no two are equal hold every card exactly once |
| `Cards.PermutationIsDistinct` | 20251212-src/card.rs:360-374 | a permutation of the 52 cards never repeats a card |
| `Cards.StandardDeck` | 20251212-src/card.rs:242-255 | the suit and rank loops give card `i` at position `i`, a permutation |
| `Cards.NewCardIndex` | 20251212-src/card.rs:58-70 | the card of the `si`-th suit and `ri`-th rank is card `13 si + ri` |
| `Cards.Swap` | 20251212-src/card.rs:276-276 | the two entries are exchanged and every other entry is kept |
| `Cards.SwapMultiset` | 20251212-src/card.rs:276-276 | a swap keeps the multiset of entries |
| `Cards.LcgStep` | 20251212-src/card.rs:266-271 | the LCG's next state wraps to 32 bits |
| `Cards.LcgShuffleMultiset` | 20251212-src/card.rs:273-277 | every shuffle step is a swap, so the shuffle keeps the length and the multiset of cards |
| `Cards.ShuffledDeckIsPermutation` | 20251212-src/card.rs:257-280 | every seed deals a permutation of the 52 cards |
| `Cards.ShuffledDeckFromSeed` | 20251212-src/card.rs:257-280 | the Fisher-Yates loop over the standard deck computes `ShuffledDeck(seed)`, a permutation |
| `Cards.CardIndexRoundTrip` | 20251212-src/card.rs:286-300 | building a card from its suit and rank, or from its index, gives the card back |
| `Cards.ShortStrInjective` | 20251212-src/card.rs:116-135 | the two-character name determines the card |
| `Cards.ShortStrExamples` | 20251212-src/card.rs:342-358 | the names `AH`, `TD`, `KS` and `7C` |
| `Cards.RunRuleExamples` | 20251212-src/card.rs:376-384 | the seven of spades goes on the eight of hearts, the seven of hearts does not |
| `Tableaus.Pile.Top` | src/tableau.rs:80-87 | `None` exactly on an empty pile, otherwise the last live card |
| `Tableaus.Pile.IsEmpty` | src/tableau.rs:57-61 | on a well-formed pile, true exactly when it has no live card |
| `Tableaus.Pile.Push` | src/tableau.rs:63-68 | on a pile that is not full: one more live card, the pushed one on top, capacity and the slots above unchanged |
| `Tableaus.Pile.Pop` | src/tableau.rs:70-78 | returns the top card (`None` and no change on an empty pile); the remaining live cards plus the popped one are the old live cards; storage untouched |
| `Tableaus.NewPile` | src/tableau.rs:43-49 | an empty pile of the given capacity |
| `Tableaus.Column.Top` | src/tableau.rs:154-161 | `None` exactly on an empty column, otherwise the last live card |
| `Tableaus.Column.IsEmpty` | src/tableau.rs:135-139 | on a well-formed column, true exactly when it has no live card |
| `Tableaus.Column.NumFaceUp` | src/tableau.rs:129-133 | at most the length; with the face-down count within the length, the two counts add up to the length (the subtraction saturates at 0 otherwise) |
| `Tableaus.Column.FaceUp` | src/tableau.rs:168-172 | the live cards past the face-down prefix, `num_face_up` of them |
| `Tableaus.Column.Push` | src/tableau.rs:141-152 | on a column that is not full: the card on top, one more card, one more face-down card exactly when pushed face down |
| `Tableaus.NewColumn` | src/tableau.rs:108-115 | an empty column with no face-down cards |
| `Tableaus.NewEmpty` | src/tableau.rs:190-198 | a well-formed tableau (fixed capacities, seven columns, four foundations) |
| `Tableaus.TotalCards` | src/tableau.rs:205-225 | the sum of stock, waste, column lengths and foundation ranks, truncated to `u8` as the final cast does |
| `Tableaus.FlattenCards` | src/tableau.rs:227-288 | for a tableau holding 52 cards: 52 cards, columns in storage order, then stock and waste bottom to top, then each foundation Ace upwards in suit order |
| `Tableaus.AppendFoundations` | src/tableau.rs:264-277 | appends every foundation's cards, suit by suit |
| `Tableaus.AppendFoundationPile` | src/tableau.rs:268-276 | appends one foundation's cards, Ace up to its top rank |
| `Tableaus.AppendLive` | src/tableau.rs:242-261 | appends the first `len` stored cards, the copy loop shared by columns, stock and waste |
| `Tableaus.FoundationPileCards` | src/tableau.rs:264-277 | foundation `s` with `n` cards holds suit `s`'s Ace to rank `n - 1`, in order |
| `Tableaus.DealFromShuffled` | src/tableau.rs:290-336 | the three dealing loops build exactly the `Deal` position |
| `Tableaus.DealFaceDownRounds` | src/tableau.rs:305-316 | after the six face-down rounds every column `c` holds its `c` face-down cards from the deck positions the rounds visit |
| `Tableaus.DealFaceUpRow` | src/tableau.rs:318-322 | after the face-up row the columns are those of `Deal` |
| `Tableaus.FillStock` | src/tableau.rs:324-333 | the stock holds the last 24 deck cards reversed, which is `Deal`'s stock |
| `Tableaus.DealtColumnPush` | src/tableau.rs:305-322 | each push of the deal extends column `c` by the deck card at that position, face down except for the last |
| `Tableaus.PushThenPop` | src/tableau.rs:63-78 | pushing then popping returns the pushed card and the same live cards |
| `Tableaus.NewEmptyIsEmpty` | src/tableau.rs:352-366 | the empty tableau holds no card, is not a win, and its columns are empty |
| `Tableaus.IsWin` | src/tableau.rs:199-203 | every foundation counter is 13 (a body with no contract of its own; `WinCountsAllCards` shows it means all 52 cards are up) |
| `Tableaus.WinCountsAllCards` | src/tableau.rs:368-374 | a winning tableau has all 52 cards on the foundations |
| `Tableaus.ColumnCountsExample` | src/tableau.rs:436-458 | three face-down and two face-up pushes give length 5, 3 face down, 2 face up, "4D" then "5H" |
| `Tableaus.DealLayout` | src/tableau.rs:376-434 | the deal holds 52 cards; column `c` has `c + 1` cards of which `c` face down; the stock is full; waste and foundations are empty |
| `Tableaus.DealStockOrder` | src/tableau.rs:324-333 | successive stock draws give `deck[28]`, `deck[29]`, ..., `deck[51]` |
| `Tableaus.DealFaceUpCards` | src/tableau.rs:318-322 | column `c`'s face-up card is `deck[27 - c]` |
| `Tableaus.DealStockIsReversedTail` | src/tableau.rs:324-333 | the dealt stock is `deck[28..]` reversed |
| `Tableaus.DealColumnsFlat` | src/tableau.rs:305-322 | the seven columns hold exactly the first 28 deck cards |
| `Tableaus.DealFlatIsDeck` | src/tableau.rs:290-336 | the deal places every deck card exactly once (as multisets) |
| `Tableaus.DealIsPermutation` | src/tableau.rs:290-336 | dealing a permutation gives a position whose flattening is a permutation |
| `Tableaus.StandardDealStockTop` | src/tableau.rs:420-433 | with the standard deck the stock's top is card 28 while the deck's last card is 51, so the layout test's `assert_eq!(top_stock, last_deck)` fails against the code |
| `Tableaus.ColumnsFlatUpdate` | src/tableau.rs:242-248 | replacing one column changes the flattened columns by exactly that column's cards |
| `Tableaus.ReversedReversed` | src/tableau.rs:324-333 | reversing twice gives the cards back |
| `Tableaus.ReversedMultiset` | src/tableau.rs:324-333 | reversal keeps the multiset of cards |
| `Moves.RankIndex` | src/moves.rs:81-85 | 0 for an Ace up to 12 for a King: the card's rank discriminant |
| `Moves.SuitIndex` | src/moves.rs:87-91 | the suit's discriminant, below 4 |
| `Moves.ColorsDiffer` | src/moves.rs:106-110 | the moves module's red test disagrees on the two cards exactly when the card module's colours differ |
| `Moves.FoundationIndexFor` | src/moves.rs:112-119 | the foundation of a card is the one at its suit's discriminant, below 4 |
| `Moves.CanMoveToFoundation` | src/moves.rs:121-137 | a complete foundation, at 13, takes no card (`CanMoveToFoundationExactly` gives the full rule) |
| `Moves.CanPlaceOnColumn` | src/moves.rs:139-146 | nothing goes on an Ace and a King goes on nothing (`CanPlaceIsStackingRule` gives the full rule) |
| `Moves.IsValidRun` | src/moves.rs:148-171 | the windows loop returns true exactly for a non-empty slice in which each card is one rank below, and of the other colour to, the card before it |
| `Moves.GenerateLegalMoves` | src/moves.rs:175-342 | the moves are exactly `LegalMoves`, section by section in the source's emission order |
| `Moves.PushColumnToFoundationMoves` | src/moves.rs:192-211 | appends the column-to-foundation moves of all seven columns in column order |
| `Moves.PushColumnToColumnMoves` | src/moves.rs:222-281 | appends the run moves of every source column in column order |
| `Moves.PushRunMovesFrom` | src/moves.rs:234-280 | appends, for each start in the face-up part, that run's moves |
| `Moves.PushRunMovesTo` | src/moves.rs:240-279 | for a valid run, appends a move to each other column that accepts its deepest card; nothing for an invalid run |
| `Moves.PushWasteToColumnMoves` | src/moves.rs:283-311 | appends a move to each column that accepts the waste's top card |
| `Moves.PushFlipMoves` | src/moves.rs:313-323 | appends a flip for each non-empty, entirely face-down column |
| `Moves.ColumnToFoundationMovesMember` | src/moves.rs:192-211 | a move is listed exactly when it is column-to-foundation from a column whose top card is face up and fits its foundation |
| `Moves.RunMovesToMember` | src/moves.rs:246-278 | a move is listed exactly when it moves that run to another column whose top accepts it (a King onto an empty column) |
| `Moves.RunMovesFromMember` | src/moves.rs:234-280 | a move is listed exactly when its start is in the face-up part, the slice to the top is a run, and the destination accepts it |
| `Moves.ColumnToColumnMovesMember` | src/moves.rs:222-281 | a move is listed exactly when `ColumnToColumnOk` holds for its source, start and destination |
| `Moves.WasteToColumnMovesMember` | src/moves.rs:283-311 | a move is listed exactly when the column accepts the waste's top card |
| `Moves.FlipMovesMember` | src/moves.rs:313-323 | a flip is listed exactly for a non-empty column whose cards are all face down |
| `Moves.NoRunOutOf` | src/moves.rs:225-231 | a column with no face-up card is the source of no run move |
| `Moves.LegalMovesExactlyLegal` | src/moves.rs:175-342 | a move is generated if and only if it is legal under the engine's rule set |
| `Moves.StockMovesExclusive` | src/moves.rs:325-340 | deal is offered exactly when the stock has cards, redeal exactly when only the waste has; never both |
| `Moves.FlipExposed` | src/moves.rs:549-562 | a non-empty column left all face down gets one face-down card fewer; any other column is unchanged; storage and length never change |
| `Moves.WriteRun` | src/moves.rs:580-584 | storage after the copy loop: the run written from `at` on, the other slots unchanged |
| `Moves.MoveRun` | src/moves.rs:564-595 | for a start inside the source: the destination's live cards gain the run, the source is cut to `start` and may turn its new top face up; otherwise nothing changes |
| `Moves.DrawUpTo` | src/moves.rs:429-440 | up to `n` cards leave the stock and land on the waste; the stock's storage is untouched |
| `Moves.DrawOne` | src/moves.rs:432-438 | one draw pushes the stock's top card onto the waste and leaves one draw fewer |
| `Moves.DrawUpToStock` | src/moves.rs:429-440 | the stock keeps all but its top `min(n, len)` cards |
| `Moves.DrawUpToWaste` | src/moves.rs:429-440 | those cards land on the waste in pop order, the stock's top first |
| `Moves.RedealAll` | src/moves.rs:442-449 | the waste empties onto the stock, which gains the waste's cards reversed |
| `Moves.ApplyColumnToColumn` | src/moves.rs:354-379 | only the two columns change; the run moves to the destination and the source may flip; `s == d` or a start past the top changes nothing |
| `Moves.ApplyColumnToFoundation` | src/moves.rs:380-399 | the top card leaves the column, which may flip, and its suit's counter becomes its rank index plus one; an empty column changes nothing |
| `Moves.ApplyWasteToColumn` | src/moves.rs:400-410 | the waste's top card goes face up onto the column; an empty waste changes nothing |
| `Moves.ApplyWasteToFoundation` | src/moves.rs:411-418 | the waste's top card sets its suit's counter; an empty waste changes nothing |
| `Moves.ApplyFlipColumn` | src/moves.rs:419-428 | a non-empty, all face-down column turns its top card face up; any other position is unchanged |
| `Moves.Apply` | src/moves.rs:347-451 | the move's effect, without a legality check, on any position where it cannot panic, keeping the tableau well-formed |
| `Moves.MoveRunBetweenColumns` | src/moves.rs:564-595 | the copy loop and the cut compute `MoveRun` |
| `Moves.DealFromStockLoop` | src/moves.rs:429-440 | the loop of at most three pops, which stops at an empty stock, computes `DrawUpTo(stock, waste, 3)` |
| `Moves.RedealLoop` | src/moves.rs:442-449 | the pop-until-empty loop computes `RedealAll` |
| `Moves.ApplyMove` | src/moves.rs:347-451 | the in-place update computes `Apply(t, m)` |
| `Moves.CanMoveToFoundationExactly` | src/moves.rs:121-137 | a card can go up exactly when its rank index is its suit's counter; on an empty foundation exactly when it is an Ace |
| `Moves.CanPlaceIsStackingRule` | src/moves.rs:139-146 | `can_place_on_column(below, above)` is the card module's stacking rule with the arguments swapped |
| `Moves.RunPrefix` | src/moves.rs:148-171 | a non-empty prefix of a run is a run |
| `Moves.RunRanks` | src/moves.rs:148-171 | along a run the rank index falls by one per card, so a run has at most 13 cards |
| `Moves.RunConcat` | src/moves.rs:148-171 | a run appended to a run whose top accepts its deepest card is a run |
| `Moves.IsRunExamples` | src/moves.rs:708-725 | 8S 7H 6C is a run; adding 5C breaks it; the empty slice is not a run; one card is |
| `Moves.FoundationRuleExamples` | src/moves.rs:781-797 | on an empty position only an Ace goes up; with the Hearts counter at 1 the Two of Hearts does |
| `Moves.AutoFlipExample` | src/moves.rs:729-779 | moving the only face-up card off three face-down cards leaves two face down and one face up |
| `MovesLegacy.LegacyFlipColumn` | 20251212-src/moves.rs:415-424 | the earlier FlipColumn: any non-empty column with a face-down card loses one, whether or not it shows a face-up card; storage and length unchanged |
| `MovesLegacy.LegacyApply` | 20251212-src/moves.rs:347-446 | the earlier `apply`; on every move other than FlipColumn it is the current `apply` |
| `MovesLegacy.DebugColumnCheck` | 20251212-src/moves.rs:447-458 | the debug loop passes exactly when every non-empty column has a face-up card |
| `MovesLegacy.LegacyApplyMove` | 20251212-src/moves.rs:347-460 | the in-place update computes `LegacyApply`, and the closing debug check passes exactly when no non-empty column is all face down |
| `MovesLegacy.LegacyAgreesOnGeneratedMoves` | 20251212-src/moves.rs:415-424 | on generated moves the earlier and the current `apply` agree |
| `MovesLegacy.LegacyFlipDiffers` | 20251212-src/moves.rs:415-424 | off the generator they differ: the earlier FlipColumn turns a second card face up where the current one does nothing |
| `MovesLegacy.SoundHasColumnRule` | 20251212-src/moves.rs:447-458 | a sound position obeys the debug check's column rule |
| `MovesLegacy.CutKeepsRule` | 20251212-src/moves.rs:558-570 | cutting within the face-up part and exposing keeps the column rule |
| `MovesLegacy.LegalMoveKeepsColumnRule` | 20251212-src/moves.rs:447-458 | after a legal move from a position obeying the rule, both engines' results obey it |
| `MovesLegacy.RunMoveKeepsColumnRule` | 20251212-src/moves.rs:354-379 | a legal run move keeps the column rule |
| `MovesLegacy.WasteToColumnKeepsColumnRule` | 20251212-src/moves.rs:396-406 | a legal waste-to-column move keeps the column rule |
| `MovesLegacy.DebugCheckPassesAfterGeneratedMoves` | 20251212-src/moves.rs:447-458 | from a sound position, every generated move can be applied and the debug assertion never fires |
| `MovesLegacy.LegacyExposureExamples` | 20251212-src/moves.rs:748-840 | the earlier tests: moving the only face-up card off two face-down ones, to a column or to the foundation, leaves two cards with one face down |
| `MoveInvariants.FaceUpBound` | src/tableau.rs:27-31 | the face-up run of a sound column ends at rank `r` and so holds at most `13 - r` cards |
| `MoveInvariants.ColumnFits` | src/tableau.rs:27-31 | a sound column never outgrows its 19 slots: at most 6 face down and a run of at most 13 |
| `MoveInvariants.LegalIsApplicable` | src/moves.rs:347-351 | in a sound position no legal move makes `apply` overflow a pile or index out of range |
| `MoveInvariants.FlipNeverLegal` | src/moves.rs:313-323 | a sound position offers no FlipColumn, because exposure already turned every top card face up |
| `MoveInvariants.CutKeepsSound` | src/moves.rs:564-595 | cutting a sound column within its face-up part and exposing leaves it sound |
| `MoveInvariants.AppendKeepsSound` | src/moves.rs:564-595 | a run placed on a sound column that accepts its deepest card leaves it sound |
| `MoveInvariants.ColumnsUpdateSound` | src/tableau.rs:177-189 | replacing columns by sound ones keeps the position sound |
| `MoveInvariants.ColumnToColumnKeepsSound` | src/moves.rs:354-379 | a legal run move can be applied and keeps the position sound |
| `MoveInvariants.ColumnToFoundationKeepsSound` | src/moves.rs:380-399 | a legal column-to-foundation move keeps the position sound |
| `MoveInvariants.WasteToColumnKeepsSound` | src/moves.rs:400-410 | a legal waste-to-column move can be applied and keeps the position sound |
| `MoveInvariants.LegalMoveKeepsSound` | src/moves.rs:347-451 | every legal move from a sound position can be applied and leads to a sound position |
| `MoveInvariants.DealIsSound` | src/tableau.rs:290-336 | the opening deal is sound |
| `MoveInvariants.LegalMoveKeepsCardCount` | src/tableau.rs:205-225 | a legal move keeps `total_cards` |
| `MoveInvariants.RunMoveKeepsCardCount` | src/moves.rs:354-379 | a legal run move keeps the card count |
| `MoveInvariants.ColumnToFoundationKeepsCardCount` | src/moves.rs:380-399 | a legal column-to-foundation move keeps the card count |
| `MoveInvariants.WasteToColumnKeepsCardCount` | src/moves.rs:400-410 | a legal waste-to-column move keeps the card count |
| `MoveInvariants.WasteToFoundationKeepsCardCount` | src/moves.rs:411-418 | a legal waste-to-foundation move keeps the card count |
| `MoveInvariants.AutoExposure` | src/moves.rs:549-562 | after a legal move off a column, the column is shorter, shows its top card when non-empty, and exactly one card turned face up when the whole face-up part left |
| `MoveInvariants.DealTimes` | src/moves.rs:429-440 | `n` deals in a row keep the columns, the foundations, the stock's storage and the number of stock and waste cards |
| `MoveInvariants.DealOnce` | src/moves.rs:429-440 | one deal keeps the waste followed by the reversed stock, and takes `min(3, len)` cards off the stock |
| `MoveInvariants.OrderKept` | src/moves.rs:429-440 | moving the top `k` cards of a pile, reversed, onto another keeps the combined order |
| `MoveInvariants.DrawKeepsOrder` | src/moves.rs:429-440 | the deal loop keeps the waste followed by the stock read from the top |
| `MoveInvariants.ApplyDealFromStock` | src/moves.rs:429-440 | DealFromStock on a position is the deal loop on its stock and waste |
| `MoveInvariants.DealOnceOrder` | src/moves.rs:429-440 | one deal takes `min(3, len)` stock cards and keeps the order |
| `MoveInvariants.DealTimesOrder` | src/moves.rs:429-440 | any number of deals keeps the order and leaves `max(0, len - 3n)` stock cards |
| `MoveInvariants.DealsLeft` | src/moves.rs:429-440 | three cards a deal: one deal and `n - 1` more leave what `n` deals leave |
| `MoveInvariants.RedealStorage` | src/moves.rs:442-449 | the redeal writes only the stock slots below its final size |
| `MoveInvariants.DealThroughThenRedeal` | src/moves.rs:442-449 | dealing a stock through onto an empty waste and redealing restores the stock slot for slot, with an empty waste, and the redeal is then a generated move |
| `MoveInvariants.DealThroughReversesStock` | src/moves.rs:429-440 | dealing a stock through leaves it empty and its cards reversed on the waste |
| `MoveInvariants.ApplyRedealStock` | src/moves.rs:442-449 | RedealStock on a position is the redeal loop on its stock and waste |
| `MoveInvariants.RedealRestoresPile` | src/moves.rs:442-449 | redealing a pile's cards held reversed onto an empty stock with that pile's storage gives the pile back |
| `MoveInvariants.RedealRestores` | src/moves.rs:442-449 | the same on a position: the stock is the pile again and the waste is empty |
| `Game.FnvSnoc` | src/game.rs:40-46 | folding one more byte is one more FNV-1a step |
| `Game.FnvAppend` | src/game.rs:40-46 | folding a concatenation folds the second part from where the first left off |
| `Game.FnvTestVector` | src/game.rs:37-46 | the offset basis and prime give the published FNV-1a 64 value `0xaf63dc4c8601ec8c` for "a" |
| `Game.MixByte` | src/game.rs:40-46 | one FNV-1a step, xor the byte then multiply by the prime modulo 2^64 (a body with no contract of its own; `FnvSnoc` and `FnvTestVector` are about it) |
| `Game.Hash` | src/game.rs:54-112 | the FNV-1a fold, from the offset basis, of the tagged foundations, stock, waste and columns (a body with no contract of its own; `HashTableau64` computes it, `HashDependsOnLive` shows what it reads) |
| `Game.ColumnsBytesLive` | src/game.rs:97-110 | columns that agree on length, face-down count and live cards give the same bytes, whatever their stale slots hold |
| `Game.HashDependsOnLive` | src/game.rs:54-112 | the hash depends only on the foundations, the live stock and waste, and each column's length, face-down count and live cards |
| `Game.MixFoundations` | src/game.rs:69-74 | the foundation loop folds the four counters in order |
| `Game.MixDrained` | src/game.rs:75-96 | draining a copy of a pile with `pop` folds its live cards top first, and leaves the caller's pile as it was |
| `Game.MixCards` | src/game.rs:104-109 | the card loop folds a column's live cards bottom to top |
| `Game.MixColumn` | src/game.rs:99-110 | one column: its length, its face-down count, then its cards |
| `Game.MixColumns` | src/game.rs:97-110 | the column loop folds all seven columns in order |
| `Game.HashTableau64` | src/game.rs:54-112 | the hash is the FNV-1a fold of the tag-separated foundations, stock, waste and columns |
| `Game.Replay` | src/game.rs:153-173 | replaying a history gives a well-formed position |
| `Game.ReplaySnoc` | src/game.rs:161-164 | replaying one move more applies it to the position replayed so far |
| `Game.ReplayablePrefix` | src/game.rs:161-164 | every prefix of a replayable history replays |
| `Game.LegalLineSound` | src/game.rs:185-195 | a line of generated moves from a sound position replays, and every position on it is sound |
| `Game.LegalLineSnoc` | src/game.rs:185-195 | a line of generated moves extended by a generated move is again such a line |
| `Game.LegalLineKeepsCards` | src/game.rs:185-195 | no card is gained or lost along a line of generated moves from a deal |
| `Game.ReplayFrom` | src/game.rs:161-164 | the apply loop computes `Replay` |
| `Game.ReplayStep` | src/game.rs:161-164 | one more move of a replayable history is applied to the position its prefix reaches |
| `Game.ReplayMoves` | src/game.rs:197-208 | deal, then apply each move in turn: `Replay(Deal(deck), ms)` |
| `Game.ExtendConsistent` | src/game.rs:185-195 | applying a move to a consistent position extends the history by that move, with the new hash |
| `Game.GameState.constructor` | src/game.rs:140-151 | the opening deal with no moves, its hash cached, no termination reason |
| `Game.GameState.FromParts` | src/game.rs:153-173 | the position is the deal replayed through the given history and the cache is consistent |
| `Game.GameState.Clone` | src/game.rs:122-136 | a fresh copy of every field, consistent when the original is |
| `Game.GameState.IsAtInitial` | src/game.rs:180-183 | true exactly when no move has been played, and then the position is the opening deal |
| `Game.GameState.MoveCount` | src/game.rs:175-178 | the number of moves in the history |
| `Game.GameState.ApplyMove` | src/game.rs:185-195 | the position is the move applied to the old one, the history grows by that move, the hash is rehashed, and consistency is kept |
| `Game.GameState.RecomputeTableauFromHistory` | src/game.rs:197-208 | the result is the deal of the stored deck replayed through the stored history, whatever the cache holds; on a consistent state it equals the cached position |
| `Game.GameState.CurrentTableau` | src/game.rs:210-216 | the cached position; on a consistent state it is the deal replayed through the history and the cached hash is its hash |
| `Search.ChildHashesAre` | src/search.rs:186-194 | the children's hashes, taken entry by entry, are exactly the hashes of the positions one accepted move away |
| `Search.Expand` | src/search.rs:186-189 | a fresh clone with the move applied through `apply_move`: the history grows by the move and the cache stays consistent |
| `Search.ExpandAll` | src/search.rs:186-194 | one child per move, in order; child `i` has the history extended by move `i`, that move applied as its position, the hash of that position, and a consistent cache |
| `Search.GeneratedMovesExtendLine` | src/search.rs:177-186 | every generated move extends a line of generated moves and `apply` accepts it |
| `Search.PushNew` | src/search.rs:186-196 | children taken last first; exactly those whose hash was not yet visited are pushed, in that order, with distinct hashes; afterwards every child's hash is visited |
| `Search.PushChildren` | src/search.rs:177-196 | the pushed states are the state's history plus one generated move, last move first, each a reached position whose hash was new, no two alike; the visited set grows by exactly the pushed hashes, and that growth is the set of hashes of all the children, so every child is pushed unless its hash was already visited |
| `Search.PickedChildren` | src/search.rs:186-196 | the pushed children, taken as values, are mirrored by the states pushed, each the visited history plus one generated move and a reached position, and their hashes with those visited before are the hashes of all the children |
| `Search.PushedAllChildren` | src/search.rs:192-194 | when every child's hash ends up visited and only pushed hashes were added, the visited set grew by the hashes of all the children |
| `Search.VisitedChildren` | src/search.rs:192-194 | the visited set grew by the hashes of all the children once each is visited and only picked ones were added |
| `Search.ChildrenReached` | src/search.rs:172-186 | the children of a reached state below the depth limit are reached positions |
| `Search.Pick` | src/search.rs:185-194 | the entries at the given indices, in that order |
| `Search.NoDuplicatesAppend` | src/search.rs:192-194 | appending new, distinct hashes keeps the pushed hashes free of duplicates |
| `Search.Pop` | src/search.rs:135-135 | `stack.pop()` takes the top state; the rest of the stack keeps the search invariant, the state taken is a reached entry of the log of pushed states, and it is the only entry off the stack not yet visited |
| `Search.FrontierPop` | src/search.rs:135-135 | taking the top state off a frontier leaves a frontier, and the state taken is reached |
| `Search.ClosedPop` | src/search.rs:135-135 | once the top entry is off the stack it is the only one off the stack that may still need a visit |
| `Search.ClosedAfterVisit` | src/search.rs:135-196 | when the popped entry is done and its new children wait on the stack, every log entry off the stack is done |
| `Search.OnLogExtend` | src/search.rs:194-195 | pushed children sit on top of the stack at the log's new indices |
| `Search.ChildLinesOf` | src/search.rs:186-190 | each new history is the visited one followed by one generated move |
| `Search.DepthBelowLimit` | src/search.rs:172-175 | a history within a 16-bit depth limit keeps its length under the `u16` cast, so the cast comparison is the plain one |
| `Search.WinOutcomeConsistent` | src/search.rs:162-170 | a winning state taken off the stack makes a consistent outcome with its history as the line |
| `Search.ExpandNode` | src/search.rs:177-196 | the children with new hashes go on top of the stack and at the end of the log; the search invariant is kept; the visited set grows by exactly the hashes of all the children; each new history extends the visited one by a generated move |
| `Search.StartSearch` | src/search.rs:125-131 | the deal alone on the stack and in the log, its hash the only one visited, no entry off the stack |
| `Search.Visit` | src/search.rs:143-196 | a win is reported exactly when the position is won; on a win or at the depth limit nothing is pushed; otherwise the unvisited children are pushed and the visited set grows by exactly the hashes of all the children; the search invariant is kept, and a state that is not won is done |
| `Search.NothingPushed` | src/search.rs:172-182 | a visit that pushes nothing keeps the stack, the log and the visited set, and a position that is not won, at the depth limit or without moves, is done |
| `Search.ExpandedIsDone` | src/search.rs:186-196 | a position that is not won is done once every child's hash is visited |
| `Search.RecordWin` | src/search.rs:163-170 | a win found within the node budget gives a consistent outcome whose line is the history of a pushed state |
| `Search.RecordCutoff` | src/search.rs:136-140 | the cutoff at `max_nodes + 1` gives a consistent outcome without a line |
| `Search.RecordExhausted` | src/search.rs:200-205 | an empty stack within the budget gives a consistent outcome counting every pushed state, each of them visited |
| `Search.SolveSingleDeckWithConfig` | src/search.rs:105-206 | the outcome echoes the deck, counts between 1 and `max_nodes + 1` nodes, has a line exactly when it is a win, and the line is a sequence of generated moves within the depth limit that wins; the log of pushed states has only reached positions, no two with one hash, the deal first and any winning line among them; when the stack runs empty within the budget, every pushed state was visited, none is won, and below the depth limit every position one generated move away from a pushed state has the hash of a pushed state |
| `Search.SolveSingleDeckDfs` | src/search.rs:91-103 | the same promise for the given limits |
| `Search.SolveSingleDeck` | src/search.rs:80-89 | the same promise for the default limits of 100000 nodes and depth 256 |
| `CanonicalDecks.SuitRankPosition` | src/canonical_decks.rs:28-38 | every card has a position in that enumeration, and the enumeration maps it back to the card |
| `CanonicalDecks.StandardDeckSuitRank` | src/canonical_decks.rs:18-41 | the nested suit/rank loops produce the suit-major deck, and that deck is a permutation of the 52 cards |
| `CanonicalDecks.EnumerateSuit` | src/canonical_decks.rs:33-37 | the inner loop extends the enumerated prefix by the thirteen cards of one suit |
| `CanonicalDecks.SuitRankStep` | src/canonical_decks.rs:33-37 | position `si * 13 + ri` holds rank `ri` of suit `si` |
| `CanonicalDecks.SuitRankOrderIsPermutation` | src/canonical_decks.rs:343-352 | the suit-major deck lists every card exactly once |
| `CanonicalDecks.SuitRankInjective` | src/canonical_decks.rs:28-38 | no two positions of the enumeration give the same card |
| `CanonicalDecks.AccessibleTableauIndices` | src/canonical_decks.rs:43-51 | seven positions, column `c`'s face-up card at `(c + 1)(c + 2) / 2 - 1` |
| `CanonicalDecks.AccessibleStockIndices` | src/canonical_decks.rs:53-62 | eight positions, every third card from deck index 30 (`28 + 3i + 2`) |
| `CanonicalDecks.ForcedAreAccessible` | src/canonical_decks.rs:91-120 | the table reserves exactly the accessible tableau positions followed by the accessible stock positions, each inside the deck and in increasing order |
| `CanonicalDecks.ForcedCardValues` | src/canonical_decks.rs:91-109 | the fifteen forced cards are 5C 7C 9C JC 5S 7S 9S and 3C 3S 7D 7H JD JH KD KH |
| `CanonicalDecks.ForcedCardsDistinct` | src/canonical_decks.rs:91-109 | no card is forced twice |
| `CanonicalDecks.ForcedValueIff` | src/canonical_decks.rs:130-137 | `is_forced_card` holds exactly for the cards that are among the forced cards |
| `CanonicalDecks.ForcedPositionIff` | src/canonical_decks.rs:139-146 | `is_forced_index` holds exactly for the reserved positions |
| `CanonicalDecks.CountFreePositions` | src/canonical_decks.rs:129-129 | 37 positions are left free by the table |
| `CanonicalDecks.CountFreeCards` | src/canonical_decks.rs:129-129 | 37 cards are not forced, so the filler has exactly as many cards as free positions |
| `CanonicalDecks.FillComplete` | src/canonical_decks.rs:153-170 | once all suits have been enumerated, every free position lies below the fill cursor |
| `CanonicalDecks.FillDistinct` | src/canonical_decks.rs:153-170 | once all suits have been enumerated, no card repeats |
| `CanonicalDecks.FillResult` | src/canonical_decks.rs:153-170 | the finished deck is a permutation; free positions hold unforced cards, in increasing suit-major order |
| `CanonicalDecks.UnplayableDeckByLocalConditions` | src/canonical_decks.rs:64-173 | the deck is a permutation of the 52 cards, each forced card stands at its position, and the other 37 cards fill the free positions in suit-major order from the bottom of the deck up |
| `CanonicalDecks.CollectForcedIndices` | src/canonical_decks.rs:111-120 | the copying loop yields exactly the table's positions |
| `CanonicalDecks.PlaceForced` | src/canonical_decks.rs:122-127 | a fresh 52-entry deck with every forced card at its position |
| `CanonicalDecks.FillSuit` | src/canonical_decks.rs:154-169 | one pass of the rank loop keeps the filler's invariant and advances to the next suit |
| `CanonicalDecks.FillRank` | src/canonical_decks.rs:155-168 | a forced card is skipped; a full deck stops the suit; otherwise the card is placed at the next free position; each keeps the filler's invariant |
| `CanonicalDecks.SkipReserved` | src/canonical_decks.rs:160-162 | the cursor halts at the end of the deck or at a free position, keeping the invariant |
| `CanonicalDecks.PlaceCard` | src/canonical_decks.rs:166-167 | writing an unforced card at a free position keeps the invariant with the cursor and the enumeration one step on |
| `CanonicalDecks.IsUnplayableByLocalConditions` | src/canonical_decks.rs:189-244 | true exactly when no accessible card is an Ace, no two tableau cards of opposite colour are one rank apart and no stock card of opposite colour is one rank below a tableau card |
| `CanonicalDecks.AccessibleCards` | src/canonical_decks.rs:194-206 | the copies are the accessible tableau and stock cards |
| `CanonicalDecks.CheckNoAce` | src/canonical_decks.rs:208-213 | true exactly when no tableau or stock card is an Ace |
| `CanonicalDecks.CheckTableauPairs` | src/canonical_decks.rs:215-227 | true exactly when no pair `i < j` of tableau cards is of opposite colour with ranks one apart |
| `CanonicalDecks.CheckStockOnTableau` | src/canonical_decks.rs:229-241 | true exactly when no stock card is of opposite colour and one rank below any tableau card |
| `CanonicalDecks.ForcedDeckIsUnplayable` | src/canonical_decks.rs:300-308 | every deck carrying the forced cards at their positions meets the four local conditions |
| `CanonicalDecks.ForcedTableauAndStock` | src/canonical_decks.rs:91-109 | such a deck shows the forced tableau cards and the forced stock cards at the accessible positions |
| `CanonicalDecks.ForcedCardsMeetConditions` | src/canonical_decks.rs:91-109 | the forced tableau and stock cards meet the four conditions |
| `CanonicalDecks.OddRanksMeetConditions` | src/canonical_decks.rs:208-241 | cards whose ranks are all Three, Five, ..., King can have no Ace and no two ranks one apart, so they meet the four conditions |
| `CanonicalDecks.CanonicalUnplayableDeck` | src/canonical_decks.rs:246-252 | a permutation of the 52 cards that meets the local conditions |
| `CanonicalDecks.CanonicalEasyWinDeck` | src/canonical_decks.rs:254-261 | the suit-major ordered deck, a permutation |
| `CanonicalDecks.CanonicalUnsolvableButPlayableDeck` | src/canonical_decks.rs:263-270 | the suit-major ordered deck, a permutation |
| `PysolText.ToAsciiLower` | src/pysol_decks.rs:92-92 | `A`..`Z` become the letter 32 code points up, every other character is kept |
| `PysolText.AsciiLower` | src/pysol_decks.rs:92-92 | the lower-cased text has the same length and each position is its character lower-cased |
| `PysolText.TrimStart` | src/pysol_decks.rs:41-41 | a suffix of the input, everything dropped is White_Space and what remains does not start with it |
| `PysolText.TrimEnd` | src/pysol_decks.rs:41-41 | a prefix of the input, everything dropped is White_Space and what remains does not end with it |
| `PysolText.Trim` | src/pysol_decks.rs:41-41 | the trimmed text is empty or neither starts nor ends with White_Space |
| `PysolText.TrimDigits` | src/pysol_decks.rs:41-47 | a run of digits, alone or after one space (as in `, 17`), trims to itself |
| `PysolText.FindChar` | src/pysol_decks.rs:31-31 | the first position holding the character, and `None` exactly when it does not occur |
| `PysolText.RFindChar` | src/pysol_decks.rs:32-32 | the last position holding the character, and `None` exactly when it does not occur |
| `PysolText.RFindSub` | src/pysol_decks.rs:95-95 | the start of the last occurrence of the pattern, and `None` only when it occurs nowhere |
| `PysolText.Split` | src/pysol_decks.rs:40-40 | splitting yields at least one piece |
| `PysolText.SplitPiecesWithoutSep` | src/pysol_decks.rs:40-40 | no piece holds the separator |
| `PysolText.JoinSplit` | src/pysol_decks.rs:40-40 | joining the pieces back with the separator gives the original text |
| `PysolText.SplitFirst` | src/pysol_decks.rs:40-40 | a separator-free piece, the separator and a rest split into that piece followed by the rest's pieces |
| `PysolText.SplitLast` | src/pysol_decks.rs:40-40 | a text, the separator and a separator-free piece split into the text's pieces followed by that piece |
| `PysolText.NatToString` | src/pysol_decks.rs:199-199 | the decimal form is a nonempty run of digits without a leading zero |
| `PysolText.NatToStringValue` | src/pysol_decks.rs:199-199 | the decimal form's digits have the value printed |
| `PysolText.NatToStringInjective` | src/pysol_decks.rs:199-199 | different naturals have different decimal forms |
| `PysolText.ParseU8` | src/pysol_decks.rs:45-47 | every accepted value is below 256 |
| `PysolText.ParseU8Accepts` | src/pysol_decks.rs:45-47 | accepted exactly when the text is an optional `+` and digits whose value is below 256, and the value is then those digits' value |
| `PysolText.ParseU8RoundTrip` | src/pysol_decks.rs:45-47 | every value below 256 printed in decimal parses back to itself |
| `PysolDecks.Brackets` | src/pysol_decks.rs:31-35 | on success, a `[` and a later `]` inside the text |
| `PysolDecks.BracketsCases` | src/pysol_decks.rs:31-35 | "missing `[`" exactly when there is none; "missing `]`" exactly when there is a `[` but no `]`; "malformed" exactly when no `]` follows the first `[`; otherwise the span runs from the first `[` to the last `]` |
| `PysolDecks.SegmentNumbers` | src/pysol_decks.rs:40-49 | on success, at most one number per segment and every number below 256 |
| `PysolDecks.CheckedNoneIff` | src/pysol_decks.rs:59-69 | the range-and-duplicate pass finds nothing exactly when the numbers are distinct card indices |
| `PysolDecks.CheckedSticky` | src/pysol_decks.rs:59-69 | the first offence found is the pass's verdict on the whole list |
| `PysolDecks.SegmentsSticky` | src/pysol_decks.rs:45-47 | the first segment that fails to parse is the verdict on the whole list |
| `PysolDecks.ParseDeckListOk` | src/pysol_decks.rs:27-76 | a list is accepted exactly when its segments are 52 distinct card indices; the deck is then those indices in order, a permutation of the 52 cards |
| `PysolDecks.ParseBracketedDeckList` | src/pysol_decks.rs:30-76 | the bracket search, the segment loop and the `seen` pass compute `ParseDeckList` |
| `PysolDecks.ListNumbers` | src/pysol_decks.rs:31-49 | the bracket errors, or the numbers of the segments between the brackets |
| `PysolDecks.CollectBetween` | src/pysol_decks.rs:37-49 | the segment loop over the text strictly between the brackets |
| `PysolDecks.FindBrackets` | src/pysol_decks.rs:31-35 | the first `[`, the last `]` and their order check, as `Brackets` |
| `PysolDecks.DeckOfListed` | src/pysol_decks.rs:51-75 | the count error, the first range or duplicate error, or the deck of the numbers |
| `PysolDecks.CollectNumbers` | src/pysol_decks.rs:40-49 | trim each segment, skip the empty ones, stop at the first that is not a `u8`, push the others |
| `PysolDecks.CheckIndices` | src/pysol_decks.rs:59-69 | the `seen` pass reports the first number that is out of range or already seen |
| `PysolDecks.CopyIndices` | src/pysol_decks.rs:71-74 | the copy gives each number as a card at its position |
| `PysolDecks.NumbersTextChars` | src/pysol_decks.rs:1-6 | the dump script's numbers are only digits, commas and spaces |
| `PysolDecks.NumbersTextSegments` | src/pysol_decks.rs:40-49 | split at the commas and trimmed, the dump line's numbers give back the deck |
| `PysolDecks.FormatBrackets` | src/pysol_decks.rs:31-37 | the dump line's brackets frame exactly its numbers |
| `PysolDecks.FormatParseRoundTrip` | src/pysol_decks.rs:1-6 | the dump script's line for any deck passes the character filter and parses back to that deck |
| `PysolDecks.ListedDistinct` | src/pysol_decks.rs:51-75 | a list whose numbers are 52 distinct cards parses to exactly those cards |
| `PysolDecks.DeckOfDistinct` | src/pysol_decks.rs:51-75 | 52 distinct cards pass the count check and the `seen` pass unchanged |
| `PysolDecks.DeckCharsFromIff` | src/pysol_decks.rs:78-83 | the character filter passes exactly when every character is a digit, a comma, ASCII whitespace or a bracket |
| `PysolDecks.DeckCharsOnly` | src/pysol_decks.rs:78-83 | true exactly when every character is a digit, a comma, ASCII whitespace or a bracket |
| `PysolDecks.LastKeyword` | src/pysol_decks.rs:92-99 | the later of the last `game` and the last `seed`, `None` exactly when neither occurs |
| `PysolDecks.FirstDigit` | src/pysol_decks.rs:105-109 | the first ASCII digit, `None` exactly when there is none |
| `PysolDecks.DigitRunEnd` | src/pysol_decks.rs:105-114 | the digits from the start run up to the returned end, which is the text's end or a non-digit |
| `PysolDecks.SniffedIsDigits` | src/pysol_decks.rs:87-117 | a sniffed label is a nonempty run of ASCII digits |
| `PysolDecks.SniffWithoutKeyword` | src/pysol_decks.rs:99-99 | text without `game` or `seed` in any case gives no label |
| `PysolDecks.SniffLabel` | src/pysol_decks.rs:87-117 | a label found is nonempty and starts with a digit (`SniffedIsDigits` shows every character is one) |
| `PysolDecks.SniffLabelNear` | src/pysol_decks.rs:87-117 | the keyword loop and the digit scan compute `SniffLabel` |
| `PysolDecks.FindLastKeyword` | src/pysol_decks.rs:93-98 | the loop over the two keywords keeps the later `rfind` position |
| `PysolDecks.ScanDigitRun` | src/pysol_decks.rs:103-115 | the run starts at the first digit and ends at the first non-digit after it; `None` exactly when there is no digit |
| `PysolDecks.SniffSeedLine` | src/pysol_decks.rs:88-91 | the comment's example `Seed: <n>` gives the label `<n>` |
| `PysolDecks.NextClose` | src/pysol_decks.rs:135-138 | the first `]` at or after the position, or the end of the text |
| `PysolDecks.FallbackLabel` | src/pysol_decks.rs:149-152 | the fallback `default#k` holds a `#` |
| `PysolDecks.LabelOf` | src/pysol_decks.rs:149-152 | a sniffed label is used as it is and the counter stays; otherwise the counter goes up by one and names the deck `default#k` |
| `PysolDecks.ExtractDecksFromText` | src/pysol_decks.rs:123-162 | the byte scan and its pushes compute `ExtractFrom` over the whole text |
| `PysolDecks.FindClose` | src/pysol_decks.rs:135-138 | the inner `while` stops at `NextClose` |
| `PysolDecks.ExtractCandidate` | src/pysol_decks.rs:143-158 | one span's decks, followed by the rest of the scan, are the scan from the span's `[` |
| `PysolDecks.CandidateDeck` | src/pysol_decks.rs:144-145 | the filter and the parse of one span, as `CandidateDeckOf` |
| `PysolDecks.ScanAtOpen` | src/pysol_decks.rs:139-158 | a rejected span adds nothing; an accepted one adds its labelled deck, then the scan goes on after the `]` |
| `PysolDecks.ScanFromSpans` | src/pysol_decks.rs:129-159 | every deck the scan reports was read from a closed span of the text |
| `PysolDecks.CandidatePermutation` | src/pysol_decks.rs:144-145 | a span that passes the filter and the parse gives a permutation of the 52 cards |
| `PysolDecks.ExtractSound` | src/pysol_decks.rs:119-162 | every deck reported is a permutation of the 52 cards, read from a span running from a `[` to the first `]` after it |
| `PysolDecks.Fallbacks` | src/pysol_decks.rs:149-152 | at most one fallback label per deck |
| `PysolDecks.ScanFallbacks` | src/pysol_decks.rs:129-159 | the fallback labels of a scan are numbered on from the counter it starts with |
| `PysolDecks.SniffLabelWithoutHash` | src/pysol_decks.rs:105-116 | a sniffed label never holds `#` |
| `PysolDecks.FallbackNumbering` | src/pysol_decks.rs:123-162 | the decks without a sniffed label are named `default#1`, `default#2`, ... in text order |
| `PysolDecks.ExtractDumpLine` | src/pysol_decks.rs:119-162 | a text that is just the dump line of a deck yields that deck once, named `default#1` |
| `PysolDecks.DumpLineSpan` | src/pysol_decks.rs:135-145 | the dump line is one closed span that passes the filter and parses to its deck |
| `PysolSeeds.SeedDisplay` | src/pysol_decks.rs:263-270 | a plain seed displays as digits, an `ms` seed as `ms` followed by digits |
| `PysolSeeds.DropTrailingL` | src/pysol_decks.rs:276-279 | one trailing `L`, and only a trailing `L`, is dropped |
| `PysolSeeds.CleanChar` | src/pysol_decks.rs:281-285 | a character whose lower case is White_Space or one of `# - _ . ,` is dropped, any other is kept lower-cased |
| `PysolSeeds.CleanSeed` | src/pysol_decks.rs:280-287 | the cleaned text is no longer than its input |
| `PysolSeeds.CleanSeedIsClean` | src/pysol_decks.rs:280-287 | the cleaned text has no separator and no ASCII capital |
| `PysolSeeds.CleanSeedOfClean` | src/pysol_decks.rs:280-287 | clean text is its own cleaning |
| `PysolSeeds.CleanSeedIdempotent` | src/pysol_decks.rs:280-287 | cleaning twice is cleaning once |
| `PysolSeeds.CleanSeedConcat` | src/pysol_decks.rs:280-287 | the cleaning works character by character over a concatenation |
| `PysolSeeds.SeparatorIgnored` | src/pysol_decks.rs:281-285 | a separator anywhere, in either case, makes no difference to the cleaned seed |
| `PysolSeeds.NormalizePysolSeedStr` | src/pysol_decks.rs:272-308 | trim, drop a trailing `L`, the cleaning loop, then the `ms` and plain cases, as `NormalizeSeed` |
| `PysolSeeds.CleanSeedChars` | src/pysol_decks.rs:280-287 | the cleaning loop computes `CleanSeed` |
| `PysolSeeds.ClassifySeedCases` | src/pysol_decks.rs:288-307 | "empty seed" exactly on empty cleaned text; a plain seed exactly on all digits, valued by them; an `ms` seed exactly on `ms` and digits of a `u64` value; a non-digit error carries the cleaned text |
| `PysolSeeds.TrimNoop` | src/pysol_decks.rs:276-276 | text that neither starts nor ends with White_Space trims to itself |
| `PysolSeeds.DisplayedIsClean` | src/pysol_decks.rs:263-287 | a seed's displayed form is already normalised text |
| `PysolSeeds.NormalizeDisplayed` | src/pysol_decks.rs:263-308 | a seed's displayed form normalises back to that seed (an `ms` seed being a `u64`) |
| `PysolSeeds.PysolCardToRustIndex` | src/pysol_decks.rs:242-249 | a PySol card with a rank below 13 maps to the engine card of the same suit (Clubs, Spades, Hearts, Diamonds) and rank |
| `PysolSeeds.RustSuitOf` | src/pysol_decks.rs:244-244 | the table maps each PySol suit to the engine's number for that suit |
| `PysolSeeds.PysolCardBijection` | src/pysol_decks.rs:242-249 | the mapping is a bijection from PySol's 4 x 13 cards onto the 52 cards: both round trips |
| `PysolSeeds.PysolCardInjective` | src/pysol_decks.rs:246-249 | different PySol cards map to different engine cards |
| `PysolSeeds.InitialSeedx` | src/pysol_decks.rs:375-385 | the working state is below 2^32: the seed itself, or the seed less 2^32 |
| `PysolSeeds.LcNext` | src/pysol_decks.rs:387-389 | the 64-bit wrapping multiply-add masked to 33 bits stays within `MAX_SEED` |
| `PysolSeeds.Random` | src/pysol_decks.rs:401-413 | the state advances by one step; seeds below 2^31 draw 15 bits, other 32-bit seeds draw a value with bit 15 set, larger seeds draw 1 to 65536 |
| `PysolSeeds.RandintInRange` | src/pysol_decks.rs:417-424 | the draw lies in `[a, b]`; with nothing to choose from it is `a` and the state is untouched; otherwise the state advances by one step |
| `PysolSeeds.ShuffleStepsUnfold` | src/pysol_decks.rs:354-362 | each step draws `j` in `[0, n]`, swaps `n` with `j` and carries on from `n - 1` |
| `PysolSeeds.ShufflePermutes` | src/pysol_decks.rs:354-362 | the shuffle only rearranges: the result is a permutation of its input |
| `PysolSeeds.LCRandom31.constructor` | src/pysol_decks.rs:375-385 | an accepted seed, with its working state as `InitialSeedx` |
| `PysolSeeds.LCRandom31.RandStep` | src/pysol_decks.rs:387-389 | the state advances by `LcNext`, the seed is kept |
| `PysolSeeds.LCRandom31.Rand15` | src/pysol_decks.rs:391-394 | one step, then bits 16 to 30 of the new state |
| `PysolSeeds.LCRandom31.Rand16` | src/pysol_decks.rs:396-399 | one step, then bits 16 to 31 of the new state |
| `PysolSeeds.LCRandom31.RandomU16ish` | src/pysol_decks.rs:401-413 | the value and new state are `Random` of the old state |
| `PysolSeeds.LCRandom31.RandintInclusive` | src/pysol_decks.rs:417-424 | the value and new state are `Randint` of the old state |
| `PysolSeeds.LCRandom31.Shuffle` | src/pysol_decks.rs:354-362 | the array and the generator's state are `ShuffleOf` of their old values |
| `PysolSeeds.NewLCRandom31` | src/pysol_decks.rs:375-385 | "ms seed out of range" exactly for seed 0 and seeds above `MAX_SEED`; otherwise a fresh generator for the seed |
| `PysolSeeds.ShuffledPairs` | src/pysol_decks.rs:318-323 | 52 PySol cards after the shuffle |
| `PysolSeeds.PysolLcDeckIsPermutation` | src/pysol_decks.rs:310-347 | the `LCRandom31` deal succeeds exactly for the seeds 1 to `MAX_SEED`, and every deal is a permutation of the 52 cards |
| `PysolSeeds.GenerateDeckFromSeed` | src/pysol_decks.rs:310-347 | the pairs, the seeding, the shuffle, the reversal and the renumbering compute `PysolLcDeck`, a permutation when it succeeds |
| `PysolSeeds.DeckFromPysolSeedStr` | src/pysol_decks.rs:197-202 | the normaliser's error is passed on; otherwise the deal fails exactly for an out-of-range seed and is labelled `seed:` and the seed's displayed form, its deck a permutation |
| `PysolSeeds.NewPysolPairs` | src/pysol_decks.rs:311-316 | the nested loops fill the array with `PysolPairs` |
| `PysolSeeds.RenumberCards` | src/pysol_decks.rs:340-343 | the closing loop computes `RustCards` |
| `Statistics.Stats.constructor` | src/stats.rs:1-6 | all three counters start at zero, so every game played is won or lost |
| `Statistics.Stats.RecordWin` | src/stats.rs:9-12 | one more game played and won, the losses kept, and the invariant kept |
| `Statistics.Stats.RecordLoss` | src/stats.rs:14-17 | one more game played and lost, the wins kept, and the invariant kept |

## Left out

- `src/display.rs`, `src/lib.rs` and `20251212-src/lib.rs`: text rendering and the command-line driver. They are output, not logic.
- `load_decks_from_file` and `load_seeds_from_file`: they read a file. The logic behind them, `extract_decks_from_text` and `deck_from_pysol_seed_str`, is modelled.
- `Stats::win_rate`: it is a floating-point division.
- `MTRandom` and the `Num` branch of `generate_deck_from_seed` for seeds of 32000 and above: the generator's `randint` goes through `f64`.
- `PysolSeeds.GenerateDeckFromSeed`: requires a seed dealt with `LCRandom31` (any `ms` seed, or a plain seed below 32000), because the other branch is `MTRandom`.
- `PysolSeeds.DeckFromPysolSeedStr`: requires the normalised seed to be one dealt with `LCRandom31`, for the same reason.
- `PysolSeeds.PysolCardToRustIndex`: requires that the `u8` arithmetic does not overflow, which holds for every rank below 217. The source would panic in a debug build and wrap in a release build.
- `PysolSeeds.Randint`: `b + 1` is unbounded, while the source's `usize` would overflow at `usize::MAX`. The shuffle only calls it with `b` below 52.
- `PysolSeeds.Random`: the `| 0x8000` is modelled as an addition. The two agree because the 15 drawn bits are below `0x8000`.
- `DetailLevel::Trace`: in the search it only prints, so the model takes the level and ignores it.
- `TerminationReason`: modelled as an enum only. The source never sets `termination_reason` to anything but `None`.
- `Game.HashTableau64`: hash collisions are not modelled. The search skips a child whose hash it has already seen, so two positions with the same hash count as one. The model proves that the log of pushed states never holds one hash twice and that, once the search runs out of states, every position one move from a pushed state has the hash of some pushed state. It does not prove that this position was itself pushed: with a collision it may never be visited.
- `Search.SolveSingleDeckWithConfig`: `nodes_visited` is unbounded. The source's `u64` could only overflow after more iterations than `max_nodes` allows.
- `Statistics.Stats.RecordWin`, `Statistics.Stats.RecordLoss`: the counters are unbounded. The source's `u64` counters overflow only after 2^64 games.
- Field widths: the `u8` lengths and counters of `Pile`, `Column` and `Tableau` are `nat` in the model. The `Sound` invariant and the capacity preconditions keep them far below 256. The one truncation that matters, `total_cards`'s cast to `u8`, is modelled.
- Stale slots: the stock and the waste keep whatever lies above `len`. After a deal-through and a redeal the stock is restored slot for slot. The waste's stale slots still hold the dealt cards, and `MoveInvariants.DealThroughThenRedeal` says nothing about them.
- Error messages: the source returns `String` errors, and the model returns the constructors of `ParseError` and `SeedError`, one per message. The wording and the embedded values (the offending text, the count) are not modelled, except for `NonDigits`, which carries the cleaned text.
- Byte offsets: `extract_decks_from_text` and `sniff_label_near` index the text by bytes, and the model indexes it by characters. They agree on ASCII text. On other text the 512-byte look-back window and the slicing differ. The source can also panic there, when a slice falls inside a multi-byte character.
- `extract_decks_from_text`: the scan is defined over a pair of functions, `Reader(deckOf, sniff)`, instantiated with the parser and the label sniffer. This splits the structural proof from the parsing proof. It does not change what is computed.
- `Pile::iter` and `Column::iter_face_up`: modelled as the live cards `cards[..len]` and `Column.FaceUp`, not as iterator objects.

## Findings

| source | as written | input that shows it | evidently intended | confidence | as-written member | corrected member |
|---|---|---|---|---|---|---|
| src/tableau.rs:430-433 | the layout test asserts that the stock's top after `deal_from_shuffled` is the deck's last card, `deck[51]` | the standard deck: the stock's top is card 28, the last card is card 51 | the stock's top is `deck[28]`, the first card left after the tableau, as the dealing code and its comment have it; the test's expected value is wrong, not the deal | not executed | `Tableaus.StandardDealStockTop` | `Tableaus.DealStockOrder` |
