/**
 * The game history layer: a 64-bit FNV-1a hash of a position, and the
 * game state that caches the current position and its hash beside the
 * opening deck and the list of moves played from it.
 */
module Game {
  import opened Wrappers
  import opened Cards
  import opened Tableaus
  import opened Moves
  import opened MoveInvariants

  /** Why a search gave up on a game; declared in game.rs and never produced by the search. */
  datatype TerminationReason = Win | LossNoMoreMoves | MaxNodesReached | MaxDepthReached | LoopOnLastBranch

  const FNV_OFFSET_BASIS: bv64 := 0xcbf2_9ce4_8422_2325
  const FNV_PRIME: bv64 := 0x0000_0100_0000_01B3

  /** Domain-separation tags written before each part of the position. */
  const TAG_FOUNDATIONS: int := 0xF0
  const TAG_STOCK: int := 0x53   // 'S'
  const TAG_WASTE: int := 0x57   // 'W'
  const TAG_COLUMNS: int := 0xC0

  // ---------------------------------------------------------------------
  // FNV-1a

  /**
   * One FNV-1a step: xor in the byte `b` is stored as (`u8`, so `b % 256`),
   * then multiply modulo 2^64 (bv64 arithmetic wraps).
   */
  function MixByte(h: bv64, b: int): bv64
  {
    (h ^ ((b % 256) as bv64)) * FNV_PRIME
  }

  /** The FNV-1a fold of `bytes`, first byte first, starting from `h`. */
  function Fnv(h: bv64, bytes: seq<int>): bv64
  {
    if bytes == [] then h else MixByte(Fnv(h, bytes[..|bytes| - 1]), bytes[|bytes| - 1])
  }

  lemma FnvSnoc(h: bv64, s: seq<int>, b: int)
    ensures Fnv(h, s + [b]) == MixByte(Fnv(h, s), b)
  {
    assert (s + [b])[..|s|] == s;
  }

  /** Folding a concatenation is folding the second part from where the first left off. */
  lemma {:induction false} FnvAppend(h: bv64, a: seq<int>, b: seq<int>)
    ensures Fnv(h, a + b) == Fnv(Fnv(h, a), b)
    decreases |b|
  {
    if b == [] {
      assert a + b == a;
    } else {
      var b0, last := b[..|b| - 1], b[|b| - 1];
      assert a + b == (a + b0) + [last];
      assert b == b0 + [last];
      FnvSnoc(h, a + b0, last);
      FnvAppend(h, a, b0);
      FnvSnoc(Fnv(h, a), b0, last);
    }
  }

  lemma LetterAByte()
    ensures (0x61 % 256) as bv64 == 0x61
  {
    assert 0x61 % 256 == 0x61;
  }

  /** The published FNV-1a 64-bit value of the one-byte string "a". */
  lemma FnvTestVector()
    ensures Fnv(FNV_OFFSET_BASIS, [0x61]) == 0xaf63_dc4c_8601_ec8c
    ensures Fnv(FNV_OFFSET_BASIS, []) == FNV_OFFSET_BASIS
  {
    FnvSnoc(FNV_OFFSET_BASIS, [], 0x61);
    assert [] + [0x61] == [0x61];
    LetterAByte();
    assert FNV_OFFSET_BASIS ^ 0x61 == 0xcbf2_9ce4_8422_2344;
    assert 0xcbf2_9ce4_8422_2344 * FNV_PRIME == 0xaf63_dc4c_8601_ec8c;
  }

  // ---------------------------------------------------------------------
  // The byte layout of a position

  /** A column's bytes: its length and face-down count, then its live cards bottom to top. */
  function ColumnBytes(col: Column): seq<int>
    requires col.Valid()
  {
    [col.len, col.numFaceDown] + col.Live()
  }

  function ColumnsBytes(cols: seq<Column>): seq<int>
    requires ColumnsValid(cols)
  {
    if cols == [] then [] else ColumnsBytes(cols[..|cols| - 1]) + ColumnBytes(cols[|cols| - 1])
  }

  /**
   * Everything the hash reads, in order: the foundation tag and counters;
   * the stock tag and the stock popped top first; the waste tag and the
   * waste popped top first; the column tag and every column.
   */
  function TableauBytes(t: Tableau): seq<int>
    requires t.Valid()
  {
    [TAG_FOUNDATIONS] + t.foundations
    + [TAG_STOCK] + Reversed(t.stock.Live())
    + [TAG_WASTE] + Reversed(t.waste.Live())
    + [TAG_COLUMNS] + ColumnsBytes(t.columns)
  }

  /** The position hash. */
  function Hash(t: Tableau): bv64
    requires t.Valid()
  {
    Fnv(FNV_OFFSET_BASIS, TableauBytes(t))
  }

  /** Stale slots do not matter: columns agreeing on length, face-down count and live cards give the same bytes. */
  lemma {:induction false} ColumnsBytesLive(a: seq<Column>, b: seq<Column>)
    requires ColumnsValid(a) && ColumnsValid(b) && |a| == |b|
    requires forall c :: 0 <= c < |a| ==> a[c].len == b[c].len && a[c].numFaceDown == b[c].numFaceDown && a[c].Live() == b[c].Live()
    ensures ColumnsBytes(a) == ColumnsBytes(b)
    decreases |a|
  {
    if a != [] {
      ColumnsBytesLive(a[..|a| - 1], b[..|b| - 1]);
    }
  }

  /**
   * The hash depends only on the foundations, the live stock and waste,
   * and each column's length, face-down count and live cards.
   */
  lemma HashDependsOnLive(t1: Tableau, t2: Tableau)
    requires t1.Valid() && t2.Valid()
    requires t1.foundations == t2.foundations
    requires t1.stock.Live() == t2.stock.Live() && t1.waste.Live() == t2.waste.Live()
    requires forall c :: 0 <= c < NUM_COLS ==>
      t1.columns[c].len == t2.columns[c].len && t1.columns[c].numFaceDown == t2.columns[c].numFaceDown
      && t1.columns[c].Live() == t2.columns[c].Live()
    ensures Hash(t1) == Hash(t2)
  {
    ColumnsBytesLive(t1.columns, t2.columns);
  }

  // ---------------------------------------------------------------------
  // `hash_tableau64`

  method MixFoundations(h0: bv64, fs: seq<nat>) returns (h: bv64)
    requires forall i :: 0 <= i < |fs| ==> fs[i] < 256
    ensures h == Fnv(h0, fs)
  {
    h := h0;
    for i := 0 to |fs|
      invariant h == Fnv(h0, fs[..i])
    {
      assert fs[..i + 1] == fs[..i] + [fs[i]];
      FnvSnoc(h0, fs[..i], fs[i]);
      h := MixByte(h, fs[i]);
    }
    assert fs[..|fs|] == fs;
  }

  /** Drains a copy of the pile with `pop`, mixing each card in; the caller's pile is a value and stays as it was. */
  method MixDrained(h0: bv64, p: Pile) returns (h: bv64)
    requires p.Valid()
    ensures h == Fnv(h0, Reversed(p.Live()))
  {
    h := h0;
    var rest := p;
    while true
      invariant rest.Valid() && rest.cards == p.cards && rest.len <= p.len
      invariant h == Fnv(h0, Reversed(p.Live())[..p.len - rest.len])
      decreases rest.len
    {
      var (card, next) := rest.Pop();
      if card.None? {
        break;
      }
      var done := Reversed(p.Live())[..p.len - rest.len];
      assert Reversed(p.Live())[..p.len - rest.len + 1] == done + [p.cards[rest.len - 1]];
      FnvSnoc(h0, done, card.value);
      h := MixByte(h, card.value);
      rest := next;
    }
    assert Reversed(p.Live())[..p.len] == Reversed(p.Live());
  }

  /** The inner loop over a column's live cards, bottom to top. */
  method MixCards(h0: bv64, cards: seq<Card>) returns (h: bv64)
    ensures h == Fnv(h0, cards)
  {
    h := h0;
    for i := 0 to |cards|
      invariant h == Fnv(h0, cards[..i])
    {
      assert cards[..i + 1] == cards[..i] + [cards[i]];
      FnvSnoc(h0, cards[..i], cards[i]);
      h := MixByte(h, cards[i]);
    }
    assert cards[..|cards|] == cards;
  }

  method MixColumn(h0: bv64, col: Column) returns (h: bv64)
    requires col.Valid()
    ensures h == Fnv(h0, ColumnBytes(col))
  {
    var lenByte, faceDownByte := col.len, col.numFaceDown;
    h := MixByte(MixByte(h0, lenByte), faceDownByte);
    FnvSnoc(h0, [], lenByte);
    FnvSnoc(h0, [lenByte], faceDownByte);
    assert [] + [lenByte] == [lenByte] && [lenByte] + [faceDownByte] == [lenByte, faceDownByte];
    h := MixCards(h, col.Live());
    FnvAppend(h0, [lenByte, faceDownByte], col.Live());
  }

  method MixColumns(h0: bv64, cols: seq<Column>) returns (h: bv64)
    requires ColumnsValid(cols)
    ensures h == Fnv(h0, ColumnsBytes(cols))
  {
    h := h0;
    for c := 0 to |cols|
      invariant h == Fnv(h0, ColumnsBytes(cols[..c]))
    {
      assert cols[..c + 1][..c] == cols[..c];
      FnvAppend(h0, ColumnsBytes(cols[..c]), ColumnBytes(cols[c]));
      h := MixColumn(h, cols[c]);
    }
    assert cols[..|cols|] == cols;
  }

  /** `hash_tableau64`: the fold over the layout, draining copies of the stock and the waste. */
  method HashTableau64(t: Tableau) returns (h: bv64)
    requires t.Valid()
    ensures h == Hash(t)
  {
    ghost var done: seq<int> := [TAG_FOUNDATIONS];
    h := MixByte(FNV_OFFSET_BASIS, TAG_FOUNDATIONS);
    FnvSnoc(FNV_OFFSET_BASIS, [], TAG_FOUNDATIONS);
    assert [] + [TAG_FOUNDATIONS] == done;
    h := MixFoundations(h, t.foundations);
    FnvAppend(FNV_OFFSET_BASIS, done, t.foundations);
    done := done + t.foundations;
    var tmp := t;
    h := MixByte(h, TAG_STOCK);
    FnvSnoc(FNV_OFFSET_BASIS, done, TAG_STOCK);
    done := done + [TAG_STOCK];
    h := MixDrained(h, tmp.stock);
    FnvAppend(FNV_OFFSET_BASIS, done, Reversed(t.stock.Live()));
    done := done + Reversed(t.stock.Live());
    h := MixByte(h, TAG_WASTE);
    FnvSnoc(FNV_OFFSET_BASIS, done, TAG_WASTE);
    done := done + [TAG_WASTE];
    h := MixDrained(h, tmp.waste);
    FnvAppend(FNV_OFFSET_BASIS, done, Reversed(t.waste.Live()));
    done := done + Reversed(t.waste.Live());
    h := MixByte(h, TAG_COLUMNS);
    FnvSnoc(FNV_OFFSET_BASIS, done, TAG_COLUMNS);
    done := done + [TAG_COLUMNS];
    h := MixColumns(h, t.columns);
    FnvAppend(FNV_OFFSET_BASIS, done, ColumnsBytes(t.columns));
    done := done + ColumnsBytes(t.columns);
    assert done == TableauBytes(t);
  }

  // ---------------------------------------------------------------------
  // Move histories

  /** Each move of `ms`, in turn, can be applied without panicking. */
  predicate Replayable(t: Tableau, ms: seq<Move>)
    requires t.Valid()
    decreases |ms|, 0
  {
    ms == [] || (Replayable(t, ms[..|ms| - 1]) && CanApply(Replay(t, ms[..|ms| - 1]), ms[|ms| - 1]))
  }

  /** The position reached from `t` by applying the moves of `ms` in order. */
  function Replay(t: Tableau, ms: seq<Move>): (r: Tableau)
    requires t.Valid() && Replayable(t, ms)
    ensures r.Valid()
    decreases |ms|, 1
  {
    if ms == [] then t else Apply(Replay(t, ms[..|ms| - 1]), ms[|ms| - 1])
  }

  /** Replaying one move more is applying it to the position replayed so far. */
  lemma ReplaySnoc(t: Tableau, ms: seq<Move>, m: Move)
    requires t.Valid() && Replayable(t, ms) && CanApply(Replay(t, ms), m)
    ensures Replayable(t, ms + [m]) && Replay(t, ms + [m]) == Apply(Replay(t, ms), m)
  {
    assert (ms + [m])[..|ms|] == ms;
  }

  /** A history that replays has prefixes that replay. */
  lemma {:induction false} ReplayablePrefix(t: Tableau, ms: seq<Move>, n: nat)
    requires t.Valid() && Replayable(t, ms) && n <= |ms|
    ensures Replayable(t, ms[..n])
    decreases |ms|
  {
    if n < |ms| {
      ReplayablePrefix(t, ms[..|ms| - 1], n);
      assert ms[..|ms| - 1][..n] == ms[..n];
    } else {
      assert ms[..n] == ms;
    }
  }

  /** Each move of `ms` is one the generator lists in the position it is played from. */
  ghost predicate LegalLine(t: Tableau, ms: seq<Move>)
    requires t.Valid()
    decreases |ms|
  {
    ms == [] ||
      var prefix := ms[..|ms| - 1];
      LegalLine(t, prefix) && Replayable(t, prefix) && ms[|ms| - 1] in LegalMoves(Replay(t, prefix))
  }

  /** A line of generated moves from a sound position replays, and every position on it is sound. */
  lemma {:induction false} LegalLineSound(t: Tableau, ms: seq<Move>)
    requires Sound(t) && LegalLine(t, ms)
    ensures Replayable(t, ms) && Sound(Replay(t, ms))
    decreases |ms|
  {
    if ms != [] {
      var prefix, m := ms[..|ms| - 1], ms[|ms| - 1];
      LegalLineSound(t, prefix);
      LegalMovesExactlyLegal(Replay(t, prefix), m);
      LegalMoveKeepsSound(Replay(t, prefix), m);
    }
  }

  /** Extending a line of generated moves by a generated move. */
  lemma LegalLineSnoc(t: Tableau, ms: seq<Move>, m: Move)
    requires Sound(t) && LegalLine(t, ms)
    requires Replayable(t, ms) && m in LegalMoves(Replay(t, ms))
    ensures LegalLine(t, ms + [m])
    ensures CanApply(Replay(t, ms), m) && Replay(t, ms + [m]) == Apply(Replay(t, ms), m)
  {
    LegalLineSound(t, ms);
    LegalMovesExactlyLegal(Replay(t, ms), m);
    LegalIsApplicable(Replay(t, ms), m);
    ReplaySnoc(t, ms, m);
    assert (ms + [m])[..|ms|] == ms;
  }

  /** No card is gained or lost along a line of generated moves from a deal. */
  lemma {:induction false} LegalLineKeepsCards(deck: seq<Card>, ms: seq<Move>)
    requires |deck| == CARDS_PER_DECK && LegalLine(Deal(deck), ms)
    ensures Replayable(Deal(deck), ms) && CardCount(Replay(Deal(deck), ms)) == CARDS_PER_DECK
    decreases |ms|
  {
    DealIsSound(deck);
    LegalLineSound(Deal(deck), ms);
    if ms == [] {
      DealLayout(deck);
    } else {
      var prefix, m := ms[..|ms| - 1], ms[|ms| - 1];
      LegalLineKeepsCards(deck, prefix);
      var p := Replay(Deal(deck), prefix);
      LegalMovesExactlyLegal(p, m);
      LegalMoveKeepsCardCount(p, m);
    }
  }

  /** The loop `for mv in moves { mv.apply(&mut tab) }`. */
  method ReplayFrom(t: Tableau, ms: seq<Move>) returns (tab: Tableau)
    requires t.Valid() && Replayable(t, ms)
    ensures tab == Replay(t, ms)
  {
    tab := t;
    assert ms[..0] == [];
    for i := 0 to |ms|
      invariant Replayable(t, ms[..i]) && tab == Replay(t, ms[..i])
    {
      ReplayStep(t, ms, i);
      tab := Moves.ApplyMove(tab, ms[i]);
    }
    assert ms[..|ms|] == ms;
  }

  /** One more move of a replayable history: its prefix of `i + 1` moves replays to the next position. */
  lemma ReplayStep(t: Tableau, ms: seq<Move>, i: nat)
    requires t.Valid() && Replayable(t, ms) && i < |ms| && Replayable(t, ms[..i])
    ensures Replay(t, ms[..i]).Valid() && CanApply(Replay(t, ms[..i]), ms[i])
    ensures Replayable(t, ms[..i + 1]) && Replay(t, ms[..i + 1]) == Apply(Replay(t, ms[..i]), ms[i])
  {
    ReplayablePrefix(t, ms, i + 1);
    assert ms[..i + 1] == ms[..i] + [ms[i]];
    assert ms[..i + 1][..i] == ms[..i];
  }

  /** The replay of `from_parts` and `recompute_tableau_from_history`: deal, then apply each move in turn. */
  method ReplayMoves(deck: seq<Card>, ms: seq<Move>) returns (tab: Tableau)
    requires |deck| == CARDS_PER_DECK && Replayable(Deal(deck), ms)
    ensures tab == Replay(Deal(deck), ms)
  {
    var dealt := DealFromShuffled(deck);
    tab := ReplayFrom(dealt, ms);
  }

  // ---------------------------------------------------------------------
  // `GameState`

  /** A history from `deck` whose replay is `t`, with `h` the hash of `t`: what a game state caches. */
  ghost predicate Consistent(deck: seq<Card>, ms: seq<Move>, t: Tableau, h: bv64)
  {
    && |deck| == CARDS_PER_DECK
    && Replayable(Deal(deck), ms)
    && t == Replay(Deal(deck), ms)
    && h == Hash(t)
  }

  /** Applying an accepted move to a consistent position extends the history by that move. */
  lemma ExtendConsistent(deck: seq<Card>, ms: seq<Move>, t: Tableau, h: bv64, m: Move)
    requires Consistent(deck, ms, t, h) && CanApply(t, m)
    ensures Consistent(deck, ms + [m], Apply(t, m), Hash(Apply(t, m)))
  {
    ReplaySnoc(Deal(deck), ms, m);
  }

  class GameState {
    var initialDeck: seq<Card>
    var tableau: Tableau
    var moves: seq<Move>
    var tableauHash: bv64
    var terminationReason: Option<TerminationReason>

    /** The cached position is the deal replayed through the history, and the cached hash is its hash. */
    ghost predicate Valid()
      reads this
    {
      Consistent(initialDeck, moves, tableau, tableauHash)
    }

    /** `GameState::new`: the opening deal with no moves played. */
    constructor (deck: seq<Card>)
      requires |deck| == CARDS_PER_DECK
      ensures Valid()
      ensures initialDeck == deck && moves == [] && tableau == Deal(deck) && terminationReason == None
    {
      var t := DealFromShuffled(deck);
      var h := HashTableau64(t);
      initialDeck := deck;
      tableau := t;
      moves := [];
      tableauHash := h;
      terminationReason := None;
    }

    /** `GameState::from_parts`: a deck and a history, the position rebuilt by replaying it. */
    constructor FromParts(deck: seq<Card>, ms: seq<Move>)
      requires |deck| == CARDS_PER_DECK && Replayable(Deal(deck), ms)
      ensures Valid()
      ensures initialDeck == deck && moves == ms && terminationReason == None
    {
      var t := ReplayMoves(deck, ms);
      var h := HashTableau64(t);
      initialDeck := deck;
      tableau := t;
      moves := ms;
      tableauHash := h;
      terminationReason := None;
    }

    /** A copy of every field, as `#[derive(Clone)]` makes it. */
    method Clone() returns (c: GameState)
      ensures fresh(c)
      ensures c.initialDeck == initialDeck && c.tableau == tableau && c.moves == moves
      ensures c.tableauHash == tableauHash && c.terminationReason == terminationReason
      ensures Valid() ==> c.Valid()
    {
      c := new GameState.FromCopy(initialDeck, tableau, moves, tableauHash, terminationReason);
    }

    /** The field-by-field constructor behind `Clone`. */
    constructor FromCopy(deck: seq<Card>, t: Tableau, ms: seq<Move>, h: bv64, reason: Option<TerminationReason>)
      ensures initialDeck == deck && tableau == t && moves == ms && tableauHash == h && terminationReason == reason
    {
      initialDeck := deck;
      tableau := t;
      moves := ms;
      tableauHash := h;
      terminationReason := reason;
    }

    function MoveCount(): (n: nat)
      reads this
      ensures n == |moves|
    {
      |moves|
    }

    /** No move played yet, so the position is the opening deal. */
    predicate IsAtInitial()
      reads this
      ensures IsAtInitial() <==> moves == []
      ensures IsAtInitial() && Valid() ==> tableau == Deal(initialDeck)
    {
      |moves| == 0
    }

    /** `apply_move`: apply to the cached position, record the move, rehash. */
    method ApplyMove(m: Move)
      requires tableau.Valid() && CanApply(tableau, m)
      modifies this
      ensures tableau == Apply(old(tableau), m) && moves == old(moves) + [m]
      ensures tableauHash == Hash(tableau)
      ensures initialDeck == old(initialDeck) && terminationReason == old(terminationReason)
      ensures old(Valid()) ==> Valid()
    {
      ghost var wasValid := Valid();
      var next := Moves.ApplyMove(tableau, m);
      var h := HashTableau64(next);
      if wasValid {
        ExtendConsistent(initialDeck, moves, tableau, tableauHash, m);
      }
      tableau, moves, tableauHash := next, moves + [m], h;
    }

    /**
     * `recompute_tableau_from_history`: deal the deck again and replay the
     * history, whatever the cached fields hold; on a consistent state the
     * replay agrees with the cache.
     */
    method RecomputeTableauFromHistory() returns (tab: Tableau)
      requires |initialDeck| == CARDS_PER_DECK && Replayable(Deal(initialDeck), moves)
      ensures tab == Replay(Deal(initialDeck), moves)
      ensures Valid() ==> tab == tableau
    {
      tab := ReplayMoves(initialDeck, moves);
    }

    function CurrentTableau(): (t: Tableau)
      reads this
      ensures t == tableau
      ensures Valid() ==> t == Replay(Deal(initialDeck), moves) && tableauHash == Hash(t)
    {
      tableau
    }
  }
}
