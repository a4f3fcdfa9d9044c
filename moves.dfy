/**
 * The draw-3 Klondike rules engine: the move type, the card tests the rules
 * use, the list of legal moves in generation order and the effect of a move
 * on a position.
 *
 * `apply` changes a `Tableau` through a unique mutable borrow; as in
 * module `Tableaus`, the method takes the position and returns the changed
 * one, and the function `Apply` states the new position in closed form.
 */
module Moves {
  import opened Wrappers
  import opened Cards
  import opened Tableaus

  const RANKS_PER_SUIT: nat := 13
  /** `rank_index` of a King. */
  const KING_RANK: nat := 12

  /** Column indices are 0-based; `srcIndex` is the storage index of the run's deepest card. */
  datatype MoveKind =
    | ColumnToColumn(srcCol: nat, srcIndex: nat, dstCol: nat)
    | ColumnToFoundation(srcCol: nat)
    | WasteToColumn(dstCol: nat)
    | WasteToFoundation
    | FlipColumn(col: nat)
    | DealFromStock
    | RedealStock

  datatype Move = Move(kind: MoveKind)

  // ---------------------------------------------------------------------
  // Card tests

  /** `rank_index`: 0 for an Ace up to 12 for a King. */
  function RankIndex(card: Card): (r: nat)
    ensures r < RANKS_PER_SUIT && r == RankValue(CardRank(card))
  {
    card % RANKS_PER_SUIT
  }

  /** `suit_index`: the position of the card's suit in `Suit::ALL`. */
  function SuitIndex(card: Card): (s: nat)
    ensures s < NUM_SUITS && s == SuitValue(CardSuit(card))
  {
    card / RANKS_PER_SUIT
  }

  function SuitOf(card: Card): (s: Suit)
    ensures s == CardSuit(card)
  {
    SUIT_ALL[SuitIndex(card)]
  }

  predicate CardIsRed(card: Card)
  {
    SuitOf(card) == Hearts || SuitOf(card) == Diamonds
  }

  /** Moves' own colour test agrees with the card module's `color`. */
  predicate ColorsDiffer(a: Card, b: Card)
    ensures ColorsDiffer(a, b) <==> Color(a) != Color(b)
  {
    CardIsRed(a) != CardIsRed(b)
  }

  function FoundationIndexFor(card: Card): (i: nat)
    ensures i < NUM_FOUNDATIONS && i == SuitValue(CardSuit(card))
  {
    SuitIndex(card)
  }

  /** `can_move_to_foundation`: an empty foundation takes an Ace, foundation `n` takes rank index `n`. */
  predicate CanMoveToFoundation(t: Tableau, card: Card)
    requires t.Valid()
    ensures CanMoveToFoundation(t, card) ==> t.foundations[SuitIndex(card)] < NUM_RANKS
  {
    var top := t.foundations[FoundationIndexFor(card)];
    if top == 0 then RankIndex(card) == 0 else RankIndex(card) == top
  }

  /** `can_place_on_column`: `above` is one rank below `below` and of the other colour. */
  predicate CanPlaceOnColumn(below: Card, above: Card)
    ensures CanPlaceOnColumn(below, above) ==> CardRank(below) != Ace && CardRank(above) != King
  {
    ColorsDiffer(below, above) && RankIndex(below) == RankIndex(above) + 1
  }

  /**
   * What `is_valid_run` accepts: a non-empty slice, in storage order, in which
   * each card could have been placed on the one before it.
   */
  predicate IsRun(s: seq<Card>)
  {
    |s| > 0 && forall i :: 0 <= i < |s| - 1 ==> CanPlaceOnColumn(s[i], s[i + 1])
  }

  /** `is_valid_run`: the windows loop with its two early returns. */
  method IsValidRun(cards: seq<Card>) returns (ok: bool)
    ensures ok == IsRun(cards)
  {
    if |cards| == 0 {
      return false;
    }
    for i := 0 to |cards| - 1
      invariant forall j :: 0 <= j < i ==> CanPlaceOnColumn(cards[j], cards[j + 1])
    {
      var top, below := cards[i], cards[i + 1];
      var rTop, rBelow := RankIndex(top), RankIndex(below);
      if rTop != rBelow + 1 {
        return false;
      }
      if !ColorsDiffer(top, below) {
        return false;
      }
    }
    return true;
  }

  // ---------------------------------------------------------------------
  // Legal moves, section by section in the order `generate_legal_moves` emits them

  /** A column whose top card is face up and fits its foundation. */
  predicate ColumnToFoundationOk(t: Tableau, c: nat)
    requires t.Valid() && c < NUM_COLS
  {
    var col := t.columns[c];
    col.len != 0 && col.len > col.numFaceDown && CanMoveToFoundation(t, col.cards[col.len - 1])
  }

  /** Column-to-foundation moves from columns `0..n`. */
  function ColumnToFoundationMoves(t: Tableau, n: nat): seq<Move>
    requires t.Valid() && n <= NUM_COLS
  {
    if n == 0 then []
    else ColumnToFoundationMoves(t, n - 1)
         + (if ColumnToFoundationOk(t, n - 1) then [Move(ColumnToFoundation(n - 1))] else [])
  }

  function WasteToFoundationMoves(t: Tableau): seq<Move>
    requires t.Valid()
  {
    if t.waste.len > 0 && CanMoveToFoundation(t, t.waste.cards[t.waste.len - 1]) then [Move(WasteToFoundation)] else []
  }

  /** An empty column takes only a King; otherwise the top card must be face up and take `card`. */
  predicate AcceptsOnColumn(dst: Column, card: Card)
    requires dst.Valid()
  {
    if dst.len == 0 then RankIndex(card) == KING_RANK
    else dst.len > dst.numFaceDown && CanPlaceOnColumn(dst.cards[dst.len - 1], card)
  }

  /** Moves of the run starting at `start` in column `s` to the columns `0..n`. */
  function RunMovesTo(t: Tableau, s: nat, start: nat, n: nat): seq<Move>
    requires t.Valid() && s < NUM_COLS && start < t.columns[s].len && n <= NUM_COLS
  {
    if n == 0 then []
    else RunMovesTo(t, s, start, n - 1)
         + (if n - 1 != s && AcceptsOnColumn(t.columns[n - 1], t.columns[s].cards[start])
            then [Move(ColumnToColumn(s, start, n - 1))] else [])
  }

  /** Run moves out of column `s` for the starts `numFaceDown..hi`. */
  function RunMovesFrom(t: Tableau, s: nat, hi: nat): seq<Move>
    requires t.Valid() && s < NUM_COLS && t.columns[s].numFaceDown <= hi <= t.columns[s].len
    decreases hi
  {
    var col := t.columns[s];
    if hi == col.numFaceDown then []
    else RunMovesFrom(t, s, hi - 1) + (if IsRun(col.cards[hi - 1..col.len]) then RunMovesTo(t, s, hi - 1, NUM_COLS) else [])
  }

  /** Column-to-column moves out of the columns `0..n`. */
  function ColumnToColumnMoves(t: Tableau, n: nat): seq<Move>
    requires t.Valid() && n <= NUM_COLS
  {
    if n == 0 then []
    else
      var col := t.columns[n - 1];
      ColumnToColumnMoves(t, n - 1) + (if col.len == 0 || col.len <= col.numFaceDown then [] else RunMovesFrom(t, n - 1, col.len))
  }

  /** Waste-to-column moves to the columns `0..n`. */
  function WasteToColumnMoves(t: Tableau, n: nat): seq<Move>
    requires t.Valid() && t.waste.len > 0 && n <= NUM_COLS
  {
    if n == 0 then []
    else WasteToColumnMoves(t, n - 1)
         + (if AcceptsOnColumn(t.columns[n - 1], t.waste.cards[t.waste.len - 1]) then [Move(WasteToColumn(n - 1))] else [])
  }

  /** Flips of the columns `0..n` that are non-empty and entirely face down. */
  function FlipMoves(t: Tableau, n: nat): seq<Move>
    requires t.Valid() && n <= NUM_COLS
  {
    if n == 0 then []
    else FlipMoves(t, n - 1)
         + (if t.columns[n - 1].len > 0 && t.columns[n - 1].numFaceDown == t.columns[n - 1].len
            then [Move(FlipColumn(n - 1))] else [])
  }

  function StockMoves(t: Tableau): seq<Move>
  {
    if t.stock.len > 0 then [Move(DealFromStock)]
    else if t.stock.len == 0 && t.waste.len > 0 then [Move(RedealStock)]
    else []
  }

  /** `generate_legal_moves`, in emission order. */
  function LegalMoves(t: Tableau): seq<Move>
    requires t.Valid()
  {
    ColumnToFoundationMoves(t, NUM_COLS)
    + WasteToFoundationMoves(t)
    + ColumnToColumnMoves(t, NUM_COLS)
    + (if t.waste.len > 0 then WasteToColumnMoves(t, NUM_COLS) else [])
    + FlipMoves(t, NUM_COLS)
    + StockMoves(t)
  }

  /**
   * A run move: the run starts in the face-up part of `s`, is a valid run up
   * to the top of `s`, and its deepest card fits on column `d`.
   */
  predicate ColumnToColumnOk(t: Tableau, s: nat, start: nat, d: nat)
    requires t.Valid() && s < NUM_COLS && d < NUM_COLS
  {
    && s != d
    && t.columns[s].numFaceDown <= start < t.columns[s].len
    && IsRun(t.columns[s].cards[start..t.columns[s].len])
    && AcceptsOnColumn(t.columns[d], t.columns[s].cards[start])
  }

  /** The rules of draw-3 Klondike as this engine states them, one move at a time. */
  predicate IsLegal(t: Tableau, m: Move)
    requires t.Valid()
  {
    match m.kind
    case ColumnToFoundation(s) => s < NUM_COLS && ColumnToFoundationOk(t, s)
    case WasteToFoundation => t.waste.len > 0 && CanMoveToFoundation(t, t.waste.cards[t.waste.len - 1])
    case ColumnToColumn(s, start, d) => s < NUM_COLS && d < NUM_COLS && ColumnToColumnOk(t, s, start, d)
    case WasteToColumn(d) => d < NUM_COLS && t.waste.len > 0 && AcceptsOnColumn(t.columns[d], t.waste.cards[t.waste.len - 1])
    case FlipColumn(c) => c < NUM_COLS && t.columns[c].len > 0 && t.columns[c].numFaceDown == t.columns[c].len
    case DealFromStock => t.stock.len > 0
    case RedealStock => t.stock.len == 0 && t.waste.len > 0
  }

  /** `generate_legal_moves`: the sections' loops, each pushing onto `moves`. */
  method GenerateLegalMoves(t: Tableau) returns (moves: seq<Move>)
    requires t.Valid()
    ensures moves == LegalMoves(t)
  {
    var toFoundation := PushColumnToFoundationMoves(t, []);
    var wasteTop := t.waste.Top();
    var wasteToFoundation := [];
    if wasteTop.Some? && CanMoveToFoundation(t, wasteTop.value) {
      wasteToFoundation := [Move(WasteToFoundation)];
    }
    var runs := PushColumnToColumnMoves(t, []);
    var wasteToColumn := [];
    if wasteTop.Some? {
      wasteToColumn := PushWasteToColumnMoves(t, []);
    }
    var flips := PushFlipMoves(t, []);
    var stock := [];
    var stockLen, wasteLen := t.stock.len, t.waste.len;
    if stockLen > 0 {
      stock := [Move(DealFromStock)];
    } else if stockLen == 0 && wasteLen > 0 {
      stock := [Move(RedealStock)];
    }
    assert toFoundation == ColumnToFoundationMoves(t, NUM_COLS) by {
      assert [] + ColumnToFoundationMoves(t, NUM_COLS) == ColumnToFoundationMoves(t, NUM_COLS);
    }
    assert wasteToFoundation == WasteToFoundationMoves(t);
    assert runs == ColumnToColumnMoves(t, NUM_COLS) by {
      assert [] + ColumnToColumnMoves(t, NUM_COLS) == ColumnToColumnMoves(t, NUM_COLS);
    }
    assert wasteToColumn == if t.waste.len > 0 then WasteToColumnMoves(t, NUM_COLS) else [] by {
      if t.waste.len > 0 {
        assert [] + WasteToColumnMoves(t, NUM_COLS) == WasteToColumnMoves(t, NUM_COLS);
      }
    }
    assert flips == FlipMoves(t, NUM_COLS) by {
      assert [] + FlipMoves(t, NUM_COLS) == FlipMoves(t, NUM_COLS);
    }
    assert stock == StockMoves(t);
    moves := toFoundation + wasteToFoundation + runs + wasteToColumn + flips + stock;
  }

  /** The column-to-foundation loop. */
  method PushColumnToFoundationMoves(t: Tableau, moves0: seq<Move>) returns (moves: seq<Move>)
    requires t.Valid()
    ensures moves == moves0 + ColumnToFoundationMoves(t, NUM_COLS)
  {
    moves := moves0;
    for c := 0 to NUM_COLS
      invariant moves == moves0 + ColumnToFoundationMoves(t, c)
    {
      var col := t.columns[c];
      if col.len == 0 {
        continue;
      }
      if col.len <= col.numFaceDown {
        continue;
      }
      var card := col.cards[col.len - 1];
      if CanMoveToFoundation(t, card) {
        moves := moves + [Move(ColumnToFoundation(c))];
      }
    }
  }

  lemma ConcatAssoc<T>(a: seq<T>, b: seq<T>, c: seq<T>)
    ensures a + b + c == a + (b + c)
  {
  }

  /** The column-to-column loop over source columns. */
  method PushColumnToColumnMoves(t: Tableau, moves0: seq<Move>) returns (moves: seq<Move>)
    requires t.Valid()
    ensures moves == moves0 + ColumnToColumnMoves(t, NUM_COLS)
  {
    moves := moves0;
    for s := 0 to NUM_COLS
      invariant moves == moves0 + ColumnToColumnMoves(t, s)
    {
      var col := t.columns[s];
      if col.len == 0 || col.len <= col.numFaceDown {
        assert ColumnToColumnMoves(t, s) + [] == ColumnToColumnMoves(t, s);
        continue;
      }
      ConcatAssoc(moves0, ColumnToColumnMoves(t, s), RunMovesFrom(t, s, col.len));
      moves := PushRunMovesFrom(t, s, moves);
    }
  }

  /** The loop over starts in the face-up part of one source column. */
  method PushRunMovesFrom(t: Tableau, s: nat, moves0: seq<Move>) returns (moves: seq<Move>)
    requires t.Valid() && s < NUM_COLS && t.columns[s].len > t.columns[s].numFaceDown
    ensures moves == moves0 + RunMovesFrom(t, s, t.columns[s].len)
  {
    var col := t.columns[s];
    moves := moves0;
    for start := col.numFaceDown to col.len
      invariant moves == moves0 + RunMovesFrom(t, s, start)
    {
      var ok := IsValidRun(col.cards[start..col.len]);
      if ok {
        ConcatAssoc(moves0, RunMovesFrom(t, s, start), RunMovesTo(t, s, start, NUM_COLS));
        moves := PushRunMovesTo(t, s, start, moves);
      } else {
        assert RunMovesFrom(t, s, start) + [] == RunMovesFrom(t, s, start);
      }
    }
  }

  /** The loop over destination columns for the run starting at `start`. */
  method PushRunMovesTo(t: Tableau, s: nat, start: nat, moves0: seq<Move>) returns (moves: seq<Move>)
    requires t.Valid() && s < NUM_COLS && start < t.columns[s].len
    ensures moves == moves0 + RunMovesTo(t, s, start, NUM_COLS)
  {
    var runTop := t.columns[s].cards[start];
    moves := moves0;
    for d := 0 to NUM_COLS
      invariant moves == moves0 + RunMovesTo(t, s, start, d)
    {
      if d == s {
        continue;
      }
      var dst := t.columns[d];
      if dst.len == 0 {
        if RankIndex(runTop) == KING_RANK {
          moves := moves + [Move(ColumnToColumn(s, start, d))];
        }
      } else {
        if dst.len <= dst.numFaceDown {
          continue;
        }
        var dstTop := dst.cards[dst.len - 1];
        if CanPlaceOnColumn(dstTop, runTop) {
          moves := moves + [Move(ColumnToColumn(s, start, d))];
        }
      }
    }
  }

  /** The waste-to-column loop, entered when the waste has a top card. */
  method PushWasteToColumnMoves(t: Tableau, moves0: seq<Move>) returns (moves: seq<Move>)
    requires t.Valid() && t.waste.len > 0
    ensures moves == moves0 + WasteToColumnMoves(t, NUM_COLS)
  {
    var card := t.waste.cards[t.waste.len - 1];
    moves := moves0;
    for d := 0 to NUM_COLS
      invariant moves == moves0 + WasteToColumnMoves(t, d)
    {
      var dst := t.columns[d];
      if dst.len == 0 {
        if RankIndex(card) == KING_RANK {
          moves := moves + [Move(WasteToColumn(d))];
        }
      } else {
        if dst.len <= dst.numFaceDown {
          continue;
        }
        var dstTop := dst.cards[dst.len - 1];
        if CanPlaceOnColumn(dstTop, card) {
          moves := moves + [Move(WasteToColumn(d))];
        }
      }
    }
  }

  /** The flip loop: non-empty columns that are entirely face down. */
  method PushFlipMoves(t: Tableau, moves0: seq<Move>) returns (moves: seq<Move>)
    requires t.Valid()
    ensures moves == moves0 + FlipMoves(t, NUM_COLS)
  {
    moves := moves0;
    for c := 0 to NUM_COLS
      invariant moves == moves0 + FlipMoves(t, c)
    {
      var col := t.columns[c];
      if col.len > 0 && col.numFaceDown == col.len {
        moves := moves + [Move(FlipColumn(c))];
      }
    }
  }

  // ---------------------------------------------------------------------
  // The generated list is exactly the legal moves

  lemma {:induction false} ColumnToFoundationMovesMember(t: Tableau, n: nat, m: Move)
    requires t.Valid() && n <= NUM_COLS
    ensures m in ColumnToFoundationMoves(t, n) <==>
      m.kind.ColumnToFoundation? && m.kind.srcCol < n && ColumnToFoundationOk(t, m.kind.srcCol)
  {
    if n > 0 {
      ColumnToFoundationMovesMember(t, n - 1, m);
    }
  }

  lemma {:induction false} RunMovesToMember(t: Tableau, s: nat, start: nat, n: nat, m: Move)
    requires t.Valid() && s < NUM_COLS && start < t.columns[s].len && n <= NUM_COLS
    ensures m in RunMovesTo(t, s, start, n) <==>
      && m.kind.ColumnToColumn? && m.kind.srcCol == s && m.kind.srcIndex == start
      && m.kind.dstCol < n && m.kind.dstCol != s
      && AcceptsOnColumn(t.columns[m.kind.dstCol], t.columns[s].cards[start])
  {
    if n > 0 {
      RunMovesToMember(t, s, start, n - 1, m);
    }
  }

  lemma {:induction false} RunMovesFromMember(t: Tableau, s: nat, hi: nat, m: Move)
    requires t.Valid() && s < NUM_COLS && t.columns[s].numFaceDown <= hi <= t.columns[s].len
    ensures m in RunMovesFrom(t, s, hi) <==>
      && m.kind.ColumnToColumn? && m.kind.srcCol == s
      && t.columns[s].numFaceDown <= m.kind.srcIndex < hi
      && IsRun(t.columns[s].cards[m.kind.srcIndex..t.columns[s].len])
      && m.kind.dstCol < NUM_COLS && m.kind.dstCol != s
      && AcceptsOnColumn(t.columns[m.kind.dstCol], t.columns[s].cards[m.kind.srcIndex])
    decreases hi
  {
    var col := t.columns[s];
    if hi > col.numFaceDown {
      RunMovesFromMember(t, s, hi - 1, m);
      RunMovesToMember(t, s, hi - 1, NUM_COLS, m);
    }
  }

  lemma {:induction false} ColumnToColumnMovesMember(t: Tableau, n: nat, m: Move)
    requires t.Valid() && n <= NUM_COLS
    ensures m in ColumnToColumnMoves(t, n) <==>
      && m.kind.ColumnToColumn? && m.kind.srcCol < n && m.kind.dstCol < NUM_COLS
      && ColumnToColumnOk(t, m.kind.srcCol, m.kind.srcIndex, m.kind.dstCol)
  {
    if n > 0 {
      ColumnToColumnMovesMember(t, n - 1, m);
      var col := t.columns[n - 1];
      var prev := ColumnToColumnMoves(t, n - 1);
      var here := if col.len == 0 || col.len <= col.numFaceDown then [] else RunMovesFrom(t, n - 1, col.len);
      InConcat(prev, here, m);
      if !(col.len == 0 || col.len <= col.numFaceDown) {
        RunMovesFromMember(t, n - 1, col.len, m);
      } else if m.kind.ColumnToColumn? && m.kind.srcCol == n - 1 && m.kind.dstCol < NUM_COLS {
        NoRunOutOf(t, n - 1, m.kind.srcIndex, m.kind.dstCol);
      }
    }
  }

  lemma InConcat<T>(a: seq<T>, b: seq<T>, x: T)
    ensures x in a + b <==> x in a || x in b
  {
  }

  /** A column with no face-up card is the source of no run move. */
  lemma NoRunOutOf(t: Tableau, s: nat, start: nat, d: nat)
    requires t.Valid() && s < NUM_COLS && d < NUM_COLS
    requires t.columns[s].len == 0 || t.columns[s].len <= t.columns[s].numFaceDown
    ensures !ColumnToColumnOk(t, s, start, d)
  {
  }

  lemma {:induction false} WasteToColumnMovesMember(t: Tableau, n: nat, m: Move)
    requires t.Valid() && t.waste.len > 0 && n <= NUM_COLS
    ensures m in WasteToColumnMoves(t, n) <==>
      m.kind.WasteToColumn? && m.kind.dstCol < n && AcceptsOnColumn(t.columns[m.kind.dstCol], t.waste.cards[t.waste.len - 1])
  {
    if n > 0 {
      WasteToColumnMovesMember(t, n - 1, m);
    }
  }

  lemma {:induction false} FlipMovesMember(t: Tableau, n: nat, m: Move)
    requires t.Valid() && n <= NUM_COLS
    ensures m in FlipMoves(t, n) <==>
      m.kind.FlipColumn? && m.kind.col < n && t.columns[m.kind.col].len > 0
      && t.columns[m.kind.col].numFaceDown == t.columns[m.kind.col].len
  {
    if n > 0 {
      FlipMovesMember(t, n - 1, m);
    }
  }

  /** `generate_legal_moves` lists a move if and only if the move is legal. */
  lemma LegalMovesExactlyLegal(t: Tableau, m: Move)
    requires t.Valid()
    ensures m in LegalMoves(t) <==> IsLegal(t, m)
  {
    ColumnToFoundationMovesMember(t, NUM_COLS, m);
    ColumnToColumnMovesMember(t, NUM_COLS, m);
    if t.waste.len > 0 {
      WasteToColumnMovesMember(t, NUM_COLS, m);
    }
    FlipMovesMember(t, NUM_COLS, m);
    var a, b, c := ColumnToFoundationMoves(t, NUM_COLS), WasteToFoundationMoves(t), ColumnToColumnMoves(t, NUM_COLS);
    var d, e, f := (if t.waste.len > 0 then WasteToColumnMoves(t, NUM_COLS) else []), FlipMoves(t, NUM_COLS), StockMoves(t);
    assert LegalMoves(t) == a + b + c + d + e + f;
    InConcat(a, b, m);
    InConcat(a + b, c, m);
    InConcat(a + b + c, d, m);
    InConcat(a + b + c + d, e, m);
    InConcat(a + b + c + d + e, f, m);
    match m.kind {
      case ColumnToFoundation(_) =>
      case WasteToFoundation =>
      case ColumnToColumn(_, _, _) =>
      case WasteToColumn(_) =>
      case FlipColumn(_) =>
      case DealFromStock =>
      case RedealStock =>
    }
  }

  /** Dealing and redealing are never offered together; one of them is offered whenever stock or waste has cards. */
  lemma StockMovesExclusive(t: Tableau)
    requires t.Valid()
    ensures !(Move(DealFromStock) in LegalMoves(t) && Move(RedealStock) in LegalMoves(t))
    ensures Move(DealFromStock) in LegalMoves(t) <==> t.stock.len > 0
    ensures Move(RedealStock) in LegalMoves(t) <==> t.stock.len == 0 && t.waste.len > 0
  {
    LegalMovesExactlyLegal(t, Move(DealFromStock));
    LegalMovesExactlyLegal(t, Move(RedealStock));
  }

  // ---------------------------------------------------------------------
  // Applying a move

  function Min(a: nat, b: nat): nat
  {
    if a <= b then a else b
  }

  /**
   * `flip_exposed_card_after_removal`: a non-empty column left entirely face
   * down turns its top card face up; any other column is unchanged.
   */
  function FlipExposed(col: Column): (c: Column)
    ensures c.cards == col.cards && c.len == col.len
    ensures col.numFaceDown <= col.len && c.len > 0 ==> c.numFaceDown < c.len
    ensures col.len > 0 && col.len == col.numFaceDown ==> c.numFaceDown + 1 == col.numFaceDown
    ensures col.len == 0 || col.len != col.numFaceDown ==> c == col
  {
    if col.len > 0 && col.len == col.numFaceDown then col.(numFaceDown := col.numFaceDown - 1) else col
  }

  /** Storage after the copy loop of `move_run_between_columns`: `run` written from slot `at` on. */
  function WriteRun(cards: seq<Card>, at: nat, run: seq<Card>): (r: seq<Card>)
    requires at + |run| <= |cards|
    ensures |r| == |cards| && r[..at] == cards[..at] && r[at..at + |run|] == run
    ensures forall k :: at + |run| <= k < |r| ==> r[k] == cards[k]
  {
    cards[..at] + run + cards[at + |run|..]
  }

  /**
   * `move_run_between_columns`, returning the new source and destination:
   * the cards from `start` to the top of `src` are appended to `dst`, the
   * source is cut back to `start` and may expose its new top card; a start at
   * or above the top changes nothing.
   */
  function MoveRun(src: Column, dst: Column, start: nat): (r: (Column, Column))
    requires src.Valid() && dst.Valid()
    requires start < src.len ==> dst.len + (src.len - start) <= |dst.cards|
    ensures r.0.Valid() && r.1.Valid() && |r.0.cards| == |src.cards| && |r.1.cards| == |dst.cards|
    ensures start >= src.len ==> r == (src, dst)
    ensures start < src.len ==>
      && r.1.Live() == dst.Live() + src.Live()[start..]
      && r.1.numFaceDown == dst.numFaceDown
      && r.0 == FlipExposed(Column(src.cards, start, src.numFaceDown))
      && r.0.Live() == src.Live()[..start]
  {
    if start >= src.len then (src, dst)
    else
      var run := src.cards[start..src.len];
      var moved := Column(WriteRun(dst.cards, dst.len, run), dst.len + |run|, dst.numFaceDown);
      assert moved.Live() == dst.Live() + run;
      (FlipExposed(Column(src.cards, start, src.numFaceDown)), moved)
  }

  /**
   * The deal loop: up to `n` pops from the stock, each pushed onto the
   * waste; `DrawUpToLive` says which cards move.
   */
  function DrawUpTo(stock: Pile, waste: Pile, n: nat): (r: (Pile, Pile))
    requires stock.Valid() && waste.Valid()
    requires waste.len + Min(n, stock.len) <= |waste.cards|
    ensures r.0.Valid() && r.1.Valid() && r.0.cards == stock.cards && |r.1.cards| == |waste.cards|
    ensures r.0.len == stock.len - Min(n, stock.len) && r.1.len == waste.len + Min(n, stock.len)
    decreases n
  {
    if n == 0 || stock.len == 0 then (stock, waste)
    else
      var (c, rest) := stock.Pop();
      DrawUpTo(rest, waste.Push(c.value), n - 1)
  }

  /** One draw of the deal: the top stock card goes onto the waste, one draw fewer to go. */
  lemma DrawOne(stock: Pile, waste: Pile, n: nat)
    requires stock.Valid() && waste.Valid() && waste.len + Min(n, stock.len) <= |waste.cards|
    requires n > 0 && stock.len > 0
    ensures stock.Pop().0.Some? && waste.len < |waste.cards|
    ensures waste.Push(stock.Pop().0.value).len + Min(n - 1, stock.Pop().1.len) <= |waste.cards|
    ensures DrawUpTo(stock, waste, n) == DrawUpTo(stock.Pop().1, waste.Push(stock.Pop().0.value), n - 1)
  {
  }

  /** The deal loop leaves the stock with all but its top `Min(n, stock.len)` cards. */
  lemma {:induction false} DrawUpToStock(stock: Pile, waste: Pile, n: nat)
    requires stock.Valid() && waste.Valid()
    requires waste.len + Min(n, stock.len) <= |waste.cards|
    ensures DrawUpTo(stock, waste, n).0.Live() == stock.Live()[..stock.len - Min(n, stock.len)]
    decreases n
  {
    if n > 0 && stock.len > 0 {
      var (c, rest) := stock.Pop();
      DrawUpToStock(rest, waste.Push(c.value), n - 1);
    }
  }

  /** The deal loop puts the stock's top `Min(n, stock.len)` cards on the waste in pop order. */
  lemma {:induction false} DrawUpToWaste(stock: Pile, waste: Pile, n: nat)
    requires stock.Valid() && waste.Valid()
    requires waste.len + Min(n, stock.len) <= |waste.cards|
    ensures DrawUpTo(stock, waste, n).1.Live()
         == waste.Live() + Reversed(stock.Live()[stock.len - Min(n, stock.len)..])
    decreases n
  {
    if n == 0 || stock.len == 0 {
      assert stock.Live()[stock.len..] == [];
    } else {
      var (c, rest) := stock.Pop();
      var k := Min(n, stock.len);
      var w := waste.Push(c.value);
      DrawUpToWaste(rest, w, n - 1);
      DrawUpToStep(stock, k);
      var moved := stock.Live()[stock.len - k..stock.len - 1];
      assert rest.Live()[rest.len - (k - 1)..] == moved;
      assert DrawUpTo(stock, waste, n).1.Live() == (waste.Live() + [c.value]) + Reversed(moved);
    }
  }

  /** One pop of the deal loop, in terms of the live cards. */
  lemma DrawUpToStep(stock: Pile, k: nat)
    requires stock.Valid() && 0 < k <= stock.len
    ensures stock.Live()[..stock.len - 1][stock.len - k..] == stock.Live()[stock.len - k..stock.len - 1]
    ensures Reversed(stock.Live()[stock.len - k..])
         == [stock.cards[stock.len - 1]] + Reversed(stock.Live()[stock.len - k..stock.len - 1])
  {
    var s := stock.Live()[stock.len - k..];
    assert s[..|s| - 1] == stock.Live()[stock.len - k..stock.len - 1];
  }

  /** The redeal loop: the waste is popped onto the stock until it is empty. */
  function RedealAll(stock: Pile, waste: Pile): (r: (Pile, Pile))
    requires stock.Valid() && waste.Valid() && stock.len + waste.len <= |stock.cards|
    ensures r.0.Valid() && r.1.Valid() && |r.0.cards| == |stock.cards| && r.1.cards == waste.cards
    ensures r.1.len == 0 && r.0.len == stock.len + waste.len
    ensures r.0.Live() == stock.Live() + Reversed(waste.Live())
    decreases waste.len
  {
    if waste.len == 0 then
      (stock, waste)
    else
      var (c, rest) := waste.Pop();
      assert waste.Live()[..waste.len - 1] == rest.Live();
      RedealAll(stock.Push(c.value), rest)
  }

  /** What `apply` needs so as not to panic: column indices in range and no overflowing pile. */
  predicate CanApply(t: Tableau, m: Move)
    requires t.Valid()
  {
    match m.kind
    case ColumnToColumn(s, start, d) =>
      s == d || (s < NUM_COLS && d < NUM_COLS
                 && (start < t.columns[s].len ==> t.columns[d].len + (t.columns[s].len - start) <= MAX_COL))
    case ColumnToFoundation(s) => s < NUM_COLS
    case WasteToColumn(d) => t.waste.len > 0 ==> d < NUM_COLS && t.columns[d].len < MAX_COL
    case WasteToFoundation => true
    case FlipColumn(c) => c < NUM_COLS
    case DealFromStock => t.waste.len + Min(3, t.stock.len) <= MAX_WASTE
    case RedealStock => t.stock.len + t.waste.len <= MAX_STOCK
  }

  /** `apply` on a ColumnToColumn move; only the two columns change. */
  function ApplyColumnToColumn(t: Tableau, s: nat, start: nat, d: nat): (r: Tableau)
    requires t.Valid() && CanApply(t, Move(ColumnToColumn(s, start, d)))
    ensures r.Valid() && r.stock == t.stock && r.waste == t.waste && r.foundations == t.foundations
    ensures s == d || start >= t.columns[s].len ==> r == t
    ensures s != d && start < t.columns[s].len ==>
      && r.columns[d].Live() == t.columns[d].Live() + t.columns[s].Live()[start..]
      && r.columns[d].numFaceDown == t.columns[d].numFaceDown
      && r.columns[s] == FlipExposed(Column(t.columns[s].cards, start, t.columns[s].numFaceDown))
      && r.columns == t.columns[s := r.columns[s]][d := r.columns[d]]
  {
    if s == d then t
    else
      var (src, dst) := MoveRun(t.columns[s], t.columns[d], start);
      t.(columns := t.columns[s := src][d := dst])
  }

  /** `apply` on a ColumnToFoundation move: the top card leaves the column and sets its suit's counter. */
  function ApplyColumnToFoundation(t: Tableau, s: nat): (r: Tableau)
    requires t.Valid() && s < NUM_COLS
    ensures r.Valid() && r.stock == t.stock && r.waste == t.waste
    ensures t.columns[s].len == 0 ==> r == t
    ensures t.columns[s].len > 0 ==>
      var card := t.columns[s].cards[t.columns[s].len - 1];
      && r.columns == t.columns[s := r.columns[s]]
      && r.columns[s] == FlipExposed(Column(t.columns[s].cards, t.columns[s].len - 1, t.columns[s].numFaceDown))
      && r.foundations == t.foundations[FoundationIndexFor(card) := RankIndex(card) + 1]
  {
    var col := t.columns[s];
    if col.len == 0 then t
    else
      var card := col.cards[col.len - 1];
      t.(columns := t.columns[s := FlipExposed(Column(col.cards, col.len - 1, col.numFaceDown))],
         foundations := t.foundations[FoundationIndexFor(card) := RankIndex(card) + 1])
  }

  /** `apply` on a WasteToColumn move: the waste's top card goes face up onto the column. */
  function ApplyWasteToColumn(t: Tableau, d: nat): (r: Tableau)
    requires t.Valid() && CanApply(t, Move(WasteToColumn(d)))
    ensures r.Valid() && r.stock == t.stock && r.foundations == t.foundations
    ensures t.waste.len == 0 ==> r == t
    ensures t.waste.len > 0 ==>
      && r.waste.Live() + [t.waste.cards[t.waste.len - 1]] == t.waste.Live() && r.waste.cards == t.waste.cards
      && r.columns == t.columns[d := r.columns[d]]
      && r.columns[d].Live() == t.columns[d].Live() + [t.waste.cards[t.waste.len - 1]]
      && r.columns[d].numFaceDown == t.columns[d].numFaceDown
  {
    var (top, rest) := t.waste.Pop();
    if top.None? then t
    else t.(waste := rest, columns := t.columns[d := t.columns[d].Push(top.value, false)])
  }

  /** `apply` on a WasteToFoundation move. */
  function ApplyWasteToFoundation(t: Tableau): (r: Tableau)
    requires t.Valid()
    ensures r.Valid() && r.stock == t.stock && r.columns == t.columns
    ensures t.waste.len == 0 ==> r == t
    ensures t.waste.len > 0 ==>
      var card := t.waste.cards[t.waste.len - 1];
      && r.waste.Live() + [card] == t.waste.Live() && r.waste.cards == t.waste.cards
      && r.foundations == t.foundations[FoundationIndexFor(card) := RankIndex(card) + 1]
  {
    var (top, rest) := t.waste.Pop();
    if top.None? then t
    else t.(waste := rest, foundations := t.foundations[FoundationIndexFor(top.value) := RankIndex(top.value) + 1])
  }

  /** `apply` on a FlipColumn move: the exposure helper, on a non-empty column with a face-down card. */
  function ApplyFlipColumn(t: Tableau, c: nat): (r: Tableau)
    requires t.Valid() && c < NUM_COLS
    ensures r.Valid() && r.stock == t.stock && r.waste == t.waste && r.foundations == t.foundations
    ensures r.columns == t.columns[c := r.columns[c]]
    ensures t.columns[c].len == t.columns[c].numFaceDown && t.columns[c].len > 0
            ==> r.columns[c].numFaceDown + 1 == t.columns[c].numFaceDown
    ensures t.columns[c].len != t.columns[c].numFaceDown ==> r == t
  {
    var col := t.columns[c];
    if col.len > 0 && col.numFaceDown > 0 then t.(columns := t.columns[c := FlipExposed(col)]) else t
  }

  /** `Move::apply`: the move's effect, with no legality check, on a position where it cannot panic. */
  function Apply(t: Tableau, m: Move): (r: Tableau)
    requires t.Valid() && CanApply(t, m)
    ensures r.Valid()
  {
    match m.kind
    case ColumnToColumn(s, start, d) => ApplyColumnToColumn(t, s, start, d)
    case ColumnToFoundation(s) => ApplyColumnToFoundation(t, s)
    case WasteToColumn(d) => ApplyWasteToColumn(t, d)
    case WasteToFoundation => ApplyWasteToFoundation(t)
    case FlipColumn(c) => ApplyFlipColumn(t, c)
    case DealFromStock =>
      var (stock, waste) := DrawUpTo(t.stock, t.waste, 3);
      t.(stock := stock, waste := waste)
    case RedealStock =>
      var (stock, waste) := RedealAll(t.stock, t.waste);
      t.(stock := stock, waste := waste)
  }

  // ---------------------------------------------------------------------
  // The mutating `apply`, loop by loop

  /** `move_run_between_columns`: the copy loop writes the run above the destination's top. */
  method MoveRunBetweenColumns(src: Column, dst: Column, start: nat) returns (newSrc: Column, newDst: Column)
    requires src.Valid() && dst.Valid()
    requires start < src.len ==> dst.len + (src.len - start) <= |dst.cards|
    ensures (newSrc, newDst) == MoveRun(src, dst, start)
  {
    var srcLen := src.len;
    if start >= srcLen {
      return src, dst;
    }
    var count := srcLen - start;
    var dstLen := dst.len;
    var cards := dst.cards;
    for i := 0 to count
      invariant |cards| == |dst.cards|
      invariant forall k :: 0 <= k < |cards| ==>
        cards[k] == if dstLen <= k < dstLen + i then src.cards[start + k - dstLen] else dst.cards[k]
    {
      cards := cards[dstLen + i := src.cards[start + i]];
    }
    var run := src.cards[start..srcLen];
    assert cards == WriteRun(dst.cards, dstLen, run) by {
      var w := WriteRun(dst.cards, dstLen, run);
      forall k | 0 <= k < |cards|
        ensures cards[k] == w[k]
      {
        if k < dstLen {
          assert w[k] == w[..dstLen][k];
        } else if k < dstLen + count {
          assert w[k] == w[dstLen..dstLen + count][k - dstLen];
        }
      }
    }
    newDst := Column(cards, dstLen + count, dst.numFaceDown);
    newSrc := FlipExposed(src.(len := start));
  }

  /** The DealFromStock loop: at most three pops, stopping early on an empty stock. */
  method DealFromStockLoop(stock: Pile, waste: Pile) returns (s: Pile, w: Pile)
    requires stock.Valid() && waste.Valid() && waste.len + Min(3, stock.len) <= |waste.cards|
    ensures (s, w) == DrawUpTo(stock, waste, 3)
  {
    s, w := stock, waste;
    var drawn := 0;
    while drawn < 3
      invariant drawn <= 3 && s.Valid() && w.Valid() && w.len + Min(3 - drawn, s.len) <= |w.cards|
      invariant DrawUpTo(s, w, 3 - drawn) == DrawUpTo(stock, waste, 3)
    {
      var (card, rest) := s.Pop();
      if card.Some? {
        DrawOne(s, w, 3 - drawn);
        assert card == s.Pop().0 && rest == s.Pop().1;
        s := rest;
        w := w.Push(card.value);
        drawn := drawn + 1;
      } else {
        break;
      }
    }
  }

  /** The RedealStock loop: pop the waste onto the stock until the pop fails. */
  method RedealLoop(stock: Pile, waste: Pile) returns (s: Pile, w: Pile)
    requires stock.Valid() && waste.Valid() && stock.len + waste.len <= |stock.cards|
    ensures (s, w) == RedealAll(stock, waste)
  {
    s, w := stock, waste;
    while true
      invariant s.Valid() && w.Valid() && s.len + w.len <= |s.cards|
      invariant RedealAll(s, w) == RedealAll(stock, waste)
      decreases w.len
    {
      var (card, rest) := w.Pop();
      if card.None? {
        break;
      }
      w := rest;
      s := s.Push(card.value);
    }
  }

  /** `Move::apply`, updating the position in place. */
  method ApplyMove(t: Tableau, m: Move) returns (r: Tableau)
    requires t.Valid() && CanApply(t, m)
    ensures r == Apply(t, m)
  {
    r := t;
    match m.kind {
      case ColumnToColumn(s, start, d) =>
        if s == d {
          return;
        }
        var src, dst := MoveRunBetweenColumns(t.columns[s], t.columns[d], start);
        r := t.(columns := t.columns[s := src][d := dst]);
      case ColumnToFoundation(s) =>
        var col := t.columns[s];
        if col.len == 0 {
          return;
        }
        var card := col.cards[col.len - 1];
        col := col.(len := col.len - 1);
        col := FlipExposed(col);
        r := t.(columns := t.columns[s := col],
                foundations := t.foundations[FoundationIndexFor(card) := RankIndex(card) + 1]);
      case WasteToColumn(d) =>
        var (card, rest) := t.waste.Pop();
        if card.Some? {
          var dst := t.columns[d];
          dst := Column(dst.cards[dst.len := card.value], dst.len + 1, dst.numFaceDown);
          r := t.(waste := rest, columns := t.columns[d := dst]);
        }
      case WasteToFoundation =>
        var (card, rest) := t.waste.Pop();
        if card.Some? {
          r := t.(waste := rest,
                  foundations := t.foundations[FoundationIndexFor(card.value) := RankIndex(card.value) + 1]);
        }
      case FlipColumn(c) =>
        var col := t.columns[c];
        if col.len > 0 && col.numFaceDown > 0 {
          r := t.(columns := t.columns[c := FlipExposed(col)]);
        }
      case DealFromStock =>
        var stock, waste := DealFromStockLoop(t.stock, t.waste);
        r := t.(stock := stock, waste := waste);
      case RedealStock =>
        var stock, waste := RedealLoop(t.stock, t.waste);
        r := t.(stock := stock, waste := waste);
    }
  }

  // ---------------------------------------------------------------------
  // Properties of the card tests and of single moves

  /** `can_move_to_foundation` holds exactly when the card's rank index equals its suit's counter. */
  lemma CanMoveToFoundationExactly(t: Tableau, card: Card)
    requires t.Valid()
    ensures CanMoveToFoundation(t, card) <==> RankIndex(card) == t.foundations[SuitIndex(card)]
    ensures t.foundations[SuitIndex(card)] == 0 ==> (CanMoveToFoundation(t, card) <==> CardRank(card) == Ace)
  {
  }

  /** `can_place_on_column(below, above)` is the card module's stacking rule with the arguments swapped. */
  lemma CanPlaceIsStackingRule(below: Card, above: Card)
    ensures CanPlaceOnColumn(below, above) <==> IsOneLowerOppositeColor(above, below)
  {
  }

  lemma RunPrefix(s: seq<Card>, k: nat)
    requires IsRun(s) && 0 < k <= |s|
    ensures IsRun(s[..k])
  {
  }

  /** Along a run the rank index falls by one per card, so a run holds at most 13 cards. */
  lemma {:induction false} RunRanks(s: seq<Card>)
    requires IsRun(s)
    ensures RankIndex(s[0]) == RankIndex(s[|s| - 1]) + |s| - 1
    ensures |s| <= RANKS_PER_SUIT
  {
    if |s| > 1 {
      RunPrefix(s, |s| - 1);
      RunRanks(s[..|s| - 1]);
      assert CanPlaceOnColumn(s[|s| - 2], s[|s| - 1]);
    }
  }

  /** Appending a run whose deepest card fits on the top of a run gives a run. */
  lemma RunConcat(a: seq<Card>, b: seq<Card>)
    requires IsRun(a) && IsRun(b) && CanPlaceOnColumn(a[|a| - 1], b[0])
    ensures IsRun(a + b)
  {
    var s := a + b;
    forall i | 0 <= i < |s| - 1
      ensures CanPlaceOnColumn(s[i], s[i + 1])
    {
      if i < |a| - 1 {
        assert s[i] == a[i] && s[i + 1] == a[i + 1];
      } else if i == |a| - 1 {
        assert s[i] == a[|a| - 1] && s[i + 1] == b[0];
      } else {
        assert s[i] == b[i - |a|] && s[i + 1] == b[i - |a| + 1];
      }
    }
  }

  /** 8S, 7H, 6C is a run; adding 5C breaks it on colour; the empty slice is not a run, one card is. */
  lemma IsRunExamples()
    ensures IsRun([NewCard(Spades, Eight), NewCard(Hearts, Seven), NewCard(Clubs, Six)])
    ensures !IsRun([NewCard(Spades, Eight), NewCard(Hearts, Seven), NewCard(Clubs, Six), NewCard(Clubs, Five)])
    ensures !IsRun([]) && IsRun([NewCard(Diamonds, King)])
  {
    var s := [NewCard(Spades, Eight), NewCard(Hearts, Seven), NewCard(Clubs, Six), NewCard(Clubs, Five)];
    assert !CanPlaceOnColumn(s[2], s[3]);
  }

  /** On an empty position only an Ace goes up; once the Hearts counter is 1, the Two of Hearts does. */
  lemma FoundationRuleExamples()
    ensures CanMoveToFoundation(NewEmpty(), NewCard(Hearts, Ace))
    ensures !CanMoveToFoundation(NewEmpty(), NewCard(Hearts, Two))
    ensures CanMoveToFoundation(NewEmpty().(foundations := [1, 0, 0, 0]), NewCard(Hearts, Two))
  {
  }

  /**
   * A column of three face-down cards under the Four of Diamonds: moving the
   * Four away leaves three cards, two face down and one face up. The
   * destination is empty and the Four is not a King, so the move is not
   * legal, and `apply` carries it out all the same.
   */
  lemma AutoFlipExample()
    ensures var t := NewEmpty();
      var col := t.columns[0].Push(NewCard(Hearts, Ace), true).Push(NewCard(Clubs, Two), true)
                             .Push(NewCard(Spades, Three), true).Push(NewCard(Diamonds, Four), false);
      var t0 := t.(columns := t.columns[0 := col]);
      var m := Move(ColumnToColumn(0, 3, 1));
      && col.len == 4 && col.numFaceDown == 3 && col.NumFaceUp() == 1
      && !IsLegal(t0, m) && CanApply(t0, m)
      && Apply(t0, m).columns[0].len == 3
      && Apply(t0, m).columns[0].numFaceDown == 2
      && Apply(t0, m).columns[0].NumFaceUp() == 1
      && Apply(t0, m).columns[1].Live() == [NewCard(Diamonds, Four)]
  {
    var t := NewEmpty();
    var col := t.columns[0].Push(NewCard(Hearts, Ace), true).Push(NewCard(Clubs, Two), true)
                           .Push(NewCard(Spades, Three), true).Push(NewCard(Diamonds, Four), false);
    var t0 := t.(columns := t.columns[0 := col]);
    assert t0.columns[1] == NewColumn(MAX_COL);
    assert col.Live()[3..] == [NewCard(Diamonds, Four)];
  }
}
