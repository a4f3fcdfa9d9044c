/**
 * What the rules engine keeps true along a game: every column obeys the
 * column rule (a non-empty column shows its top card), keeps at most six
 * face-down cards and shows a run above them; stock and waste together hold
 * at most 24 cards and no foundation passes the King. From such a position
 * every generated move can be applied without overflowing a pile, leads to
 * such a position again and keeps the card count.
 */
module MoveInvariants {
  import opened Cards
  import opened Tableaus
  import opened Moves

  /** The deepest column of the deal has six face-down cards; no move adds any. */
  const MAX_FACE_DOWN: nat := 6

  predicate ColumnSound(col: Column)
    requires col.Valid()
  {
    && col.numFaceDown <= col.len
    && (col.len > 0 ==> col.numFaceDown < col.len)
    && col.numFaceDown <= MAX_FACE_DOWN
    && (col.len > 0 ==> IsRun(col.cards[col.numFaceDown..col.len]))
  }

  predicate Sound(t: Tableau)
  {
    && t.Valid()
    && t.stock.len + t.waste.len <= MAX_STOCK
    && (forall i :: 0 <= i < NUM_FOUNDATIONS ==> t.foundations[i] <= RANKS_PER_SUIT)
    && (forall c :: 0 <= c < NUM_COLS ==> ColumnSound(t.columns[c]))
  }

  // ---------------------------------------------------------------------
  // Capacity

  /** The face-up run on a sound column ends at rank `r` and so holds at most `13 - r` cards. */
  lemma FaceUpBound(col: Column)
    requires col.Valid() && ColumnSound(col) && col.len > 0
    ensures col.len - col.numFaceDown + RankIndex(col.cards[col.len - 1]) <= RANKS_PER_SUIT
  {
    var f := col.cards[col.numFaceDown..col.len];
    RunRanks(f);
    assert f[|f| - 1] == col.cards[col.len - 1];
  }

  /** A sound column never outgrows its 19 slots. */
  lemma ColumnFits(col: Column)
    requires col.Valid() && ColumnSound(col)
    ensures col.len <= MAX_COL
  {
    if col.len > 0 {
      FaceUpBound(col);
    }
  }

  /** In a sound position no legal move makes `apply` panic. */
  lemma LegalIsApplicable(t: Tableau, m: Move)
    requires Sound(t) && IsLegal(t, m)
    ensures CanApply(t, m)
  {
    match m.kind {
      case ColumnToColumn(s, start, d) =>
        var src, dst := t.columns[s], t.columns[d];
        var run := src.cards[start..src.len];
        RunRanks(run);
        assert run[0] == src.cards[start];
        if dst.len > 0 {
          FaceUpBound(dst);
        }
      case WasteToColumn(d) =>
        if t.columns[d].len > 0 {
          FaceUpBound(t.columns[d]);
        }
      case _ =>
    }
  }

  /** FlipColumn is generated only for a non-empty column with no face-up card, which the column rule excludes. */
  lemma FlipNeverLegal(t: Tableau, c: nat)
    requires Sound(t)
    ensures !IsLegal(t, Move(FlipColumn(c)))
  {
  }

  // ---------------------------------------------------------------------
  // Preservation, one column at a time

  /** Cutting a sound column back to a point in its face-up part and exposing leaves it sound. */
  lemma CutKeepsSound(col: Column, start: nat)
    requires col.Valid() && ColumnSound(col) && col.numFaceDown <= start < col.len
    ensures var c := FlipExposed(Column(col.cards, start, col.numFaceDown));
      c.Valid() && ColumnSound(c) && c.Live() == col.Live()[..start]
  {
    var c := FlipExposed(Column(col.cards, start, col.numFaceDown));
    if start > col.numFaceDown {
      var f := col.cards[col.numFaceDown..col.len];
      RunPrefix(f, start - col.numFaceDown);
      assert f[..start - col.numFaceDown] == c.cards[c.numFaceDown..c.len];
    }
  }

  /** Putting a run on a sound column that accepts its deepest card leaves the column sound. */
  lemma AppendKeepsSound(dst: Column, next: Column, run: seq<Card>)
    requires dst.Valid() && ColumnSound(dst) && IsRun(run) && AcceptsOnColumn(dst, run[0])
    requires next.Valid() && next.Live() == dst.Live() + run && next.numFaceDown == dst.numFaceDown
    requires next.len <= MAX_COL
    ensures ColumnSound(next)
  {
    var nfd := dst.numFaceDown;
    assert next.cards[nfd..next.len] == next.Live()[nfd..];
    if dst.len == 0 {
      assert next.Live()[nfd..] == run;
    } else {
      var f := dst.cards[nfd..dst.len];
      assert next.Live()[nfd..] == f + run;
      assert f[|f| - 1] == dst.cards[dst.len - 1];
      RunConcat(f, run);
    }
  }

  /** Replacing columns by sound ones keeps the position sound. */
  lemma ColumnsUpdateSound(t: Tableau, cols: seq<Column>)
    requires Sound(t) && |cols| == NUM_COLS
    requires forall c :: 0 <= c < NUM_COLS ==> |cols[c].cards| == MAX_COL && cols[c].Valid() && ColumnSound(cols[c])
    ensures Sound(t.(columns := cols))
  {
  }

  // ---------------------------------------------------------------------
  // Preservation, move by move

  lemma ColumnToColumnKeepsSound(t: Tableau, s: nat, start: nat, d: nat)
    requires Sound(t) && IsLegal(t, Move(ColumnToColumn(s, start, d)))
    ensures CanApply(t, Move(ColumnToColumn(s, start, d)))
    ensures Sound(Apply(t, Move(ColumnToColumn(s, start, d))))
  {
    var m := Move(ColumnToColumn(s, start, d));
    LegalIsApplicable(t, m);
    var r := Apply(t, m);
    var src := t.columns[s];
    var run := src.Live()[start..];
    assert run == src.cards[start..src.len];
    CutKeepsSound(src, start);
    AppendKeepsSound(t.columns[d], r.columns[d], run);
    ColumnsUpdateSound(t, r.columns);
  }

  lemma ColumnToFoundationKeepsSound(t: Tableau, s: nat)
    requires Sound(t) && IsLegal(t, Move(ColumnToFoundation(s)))
    ensures Sound(Apply(t, Move(ColumnToFoundation(s))))
  {
    var r := Apply(t, Move(ColumnToFoundation(s)));
    CutKeepsSound(t.columns[s], t.columns[s].len - 1);
    ColumnsUpdateSound(t, r.columns);
  }

  lemma WasteToColumnKeepsSound(t: Tableau, d: nat)
    requires Sound(t) && IsLegal(t, Move(WasteToColumn(d)))
    ensures CanApply(t, Move(WasteToColumn(d)))
    ensures Sound(Apply(t, Move(WasteToColumn(d))))
  {
    var m := Move(WasteToColumn(d));
    LegalIsApplicable(t, m);
    var r := Apply(t, m);
    var card := t.waste.cards[t.waste.len - 1];
    AppendKeepsSound(t.columns[d], r.columns[d], [card]);
    ColumnsUpdateSound(t, r.columns);
  }

  /** Every legal move from a sound position can be applied and leads to a sound position. */
  lemma LegalMoveKeepsSound(t: Tableau, m: Move)
    requires Sound(t) && IsLegal(t, m)
    ensures CanApply(t, m) && Sound(Apply(t, m))
  {
    LegalIsApplicable(t, m);
    match m.kind {
      case ColumnToColumn(s, start, d) => ColumnToColumnKeepsSound(t, s, start, d);
      case ColumnToFoundation(s) => ColumnToFoundationKeepsSound(t, s);
      case WasteToColumn(d) => WasteToColumnKeepsSound(t, d);
      case WasteToFoundation =>
      case FlipColumn(c) =>
      case DealFromStock =>
      case RedealStock =>
    }
  }

  /** The opening deal is sound. */
  lemma DealIsSound(deck: seq<Card>)
    requires |deck| == CARDS_PER_DECK
    ensures Sound(Deal(deck))
  {
    var t := Deal(deck);
    DealLayout(deck);
    forall c | 0 <= c < NUM_COLS
      ensures ColumnSound(t.columns[c])
    {
      assert |t.columns[c].cards[c..c + 1]| == 1;
    }
  }

  // ---------------------------------------------------------------------
  // Card count

  lemma {:induction false} ColumnLengthsUpdate(cs: seq<Column>, i: nat, c: Column)
    requires i < |cs|
    ensures ColumnLengths(cs[i := c]) + cs[i].len == ColumnLengths(cs) + c.len
    decreases |cs|
  {
    var last := |cs| - 1;
    if i < last {
      ColumnLengthsUpdate(cs[..last], i, c);
      assert cs[i := c][..last] == cs[..last][i := c];
    } else {
      assert cs[i := c][..last] == cs[..last];
    }
  }

  lemma {:induction false} SumUpdate(xs: seq<nat>, i: nat, v: nat)
    requires i < |xs|
    ensures Sum(xs[i := v]) + xs[i] == Sum(xs) + v
    decreases |xs|
  {
    var last := |xs| - 1;
    if i < last {
      SumUpdate(xs[..last], i, v);
      assert xs[i := v][..last] == xs[..last][i := v];
    } else {
      assert xs[i := v][..last] == xs[..last];
    }
  }

  /**
   * A legal move keeps `total_cards`: cards only move between piles, and a
   * foundation move raises its counter by exactly one.
   */
  lemma LegalMoveKeepsCardCount(t: Tableau, m: Move)
    requires t.Valid() && CanApply(t, m) && IsLegal(t, m)
    ensures CardCount(Apply(t, m)) == CardCount(t)
  {
    match m.kind {
      case ColumnToColumn(_, _, _) => RunMoveKeepsCardCount(t, m);
      case ColumnToFoundation(_) => ColumnToFoundationKeepsCardCount(t, m);
      case WasteToColumn(_) => WasteToColumnKeepsCardCount(t, m);
      case WasteToFoundation => WasteToFoundationKeepsCardCount(t, m);
      case FlipColumn(c) => ColumnLengthsUpdate(t.columns, c, Apply(t, m).columns[c]);
      case DealFromStock =>
      case RedealStock =>
    }
  }

  lemma RunMoveKeepsCardCount(t: Tableau, m: Move)
    requires t.Valid() && CanApply(t, m) && IsLegal(t, m) && m.kind.ColumnToColumn?
    ensures CardCount(Apply(t, m)) == CardCount(t)
  {
    var r := Apply(t, m);
    var s, start, d := m.kind.srcCol, m.kind.srcIndex, m.kind.dstCol;
    var mid := t.columns[s := r.columns[s]];
    ColumnLengthsUpdate(t.columns, s, r.columns[s]);
    ColumnLengthsUpdate(mid, d, r.columns[d]);
    assert |r.columns[d].Live()| == t.columns[d].len + (t.columns[s].len - start);
  }

  lemma ColumnToFoundationKeepsCardCount(t: Tableau, m: Move)
    requires t.Valid() && CanApply(t, m) && IsLegal(t, m) && m.kind.ColumnToFoundation?
    ensures CardCount(Apply(t, m)) == CardCount(t)
  {
    var r := Apply(t, m);
    var s := m.kind.srcCol;
    var card := t.columns[s].cards[t.columns[s].len - 1];
    CanMoveToFoundationExactly(t, card);
    ColumnLengthsUpdate(t.columns, s, r.columns[s]);
    SumUpdate(t.foundations, SuitIndex(card), RankIndex(card) + 1);
  }

  lemma WasteToColumnKeepsCardCount(t: Tableau, m: Move)
    requires t.Valid() && CanApply(t, m) && IsLegal(t, m) && m.kind.WasteToColumn?
    ensures CardCount(Apply(t, m)) == CardCount(t)
  {
    var r := Apply(t, m);
    var d := m.kind.dstCol;
    ColumnLengthsUpdate(t.columns, d, r.columns[d]);
    assert |r.columns[d].Live()| == t.columns[d].len + 1;
    assert |r.waste.Live()| + 1 == t.waste.len;
  }

  lemma WasteToFoundationKeepsCardCount(t: Tableau, m: Move)
    requires t.Valid() && CanApply(t, m) && IsLegal(t, m) && m.kind.WasteToFoundation?
    ensures CardCount(Apply(t, m)) == CardCount(t)
  {
    var r := Apply(t, m);
    var card := t.waste.cards[t.waste.len - 1];
    CanMoveToFoundationExactly(t, card);
    SumUpdate(t.foundations, SuitIndex(card), RankIndex(card) + 1);
    assert |r.waste.Live()| + 1 == t.waste.len;
  }

  // ---------------------------------------------------------------------
  // Auto-exposure

  /**
   * After a legal ColumnToColumn or ColumnToFoundation move, the source column
   * is shorter and, when non-empty, shows its top card; if the move took its
   * whole face-up part, exactly one face-down card turned over, and otherwise
   * the face-down count is unchanged.
   */
  lemma AutoExposure(t: Tableau, m: Move)
    requires t.Valid() && CanApply(t, m) && IsLegal(t, m)
    requires m.kind.ColumnToColumn? || m.kind.ColumnToFoundation?
    ensures var before, after := t.columns[m.kind.srcCol], Apply(t, m).columns[m.kind.srcCol];
      && after.len < before.len
      && (after.len > 0 ==> after.numFaceDown < after.len)
      && (after.len == before.numFaceDown && after.len > 0 ==> after.numFaceDown + 1 == before.numFaceDown)
      && (after.len != before.numFaceDown ==> after.numFaceDown == before.numFaceDown)
  {
  }

  // ---------------------------------------------------------------------
  // Dealing through the stock and redealing

  /** `n` DealFromStock moves in a row. */
  function DealTimes(t: Tableau, n: nat): (r: Tableau)
    requires t.Valid() && t.stock.len + t.waste.len <= MAX_WASTE
    ensures r.Valid() && r.stock.len + r.waste.len == t.stock.len + t.waste.len
    ensures r.columns == t.columns && r.foundations == t.foundations && r.stock.cards == t.stock.cards
    decreases n
  {
    if n == 0 then t else DealTimes(DealOnce(t), n - 1)
  }

  /** One DealFromStock, with what it keeps: the waste-then-reversed-stock order, and three cards fewer on the stock. */
  function DealOnce(t: Tableau): (r: Tableau)
    requires t.Valid() && t.stock.len + t.waste.len <= MAX_WASTE
    ensures CanApply(t, Move(DealFromStock)) && r == Apply(t, Move(DealFromStock))
    ensures r.Valid() && r.stock.len + r.waste.len == t.stock.len + t.waste.len
    ensures r.columns == t.columns && r.foundations == t.foundations && r.stock.cards == t.stock.cards
    ensures r.waste.Live() + Reversed(r.stock.Live()) == t.waste.Live() + Reversed(t.stock.Live())
    ensures r.stock.len == t.stock.len - Min(3, t.stock.len)
  {
    DealOnceOrder(t);
    Apply(t, Move(DealFromStock))
  }

  /** Moving the top `k` cards of `s` reversed onto `w` keeps `w` followed by `s` reversed. */
  lemma OrderKept(w: seq<Card>, s: seq<Card>, k: nat)
    requires k <= |s|
    ensures (w + Reversed(s[|s| - k..])) + Reversed(s[..|s| - k]) == w + Reversed(s)
  {
    var lo, hi := s[..|s| - k], s[|s| - k..];
    ReversedConcat(lo, hi);
    assert lo + hi == s;
  }

  /** The deal loop keeps the order of the waste followed by the stock read from the top. */
  lemma DrawKeepsOrder(stock: Pile, waste: Pile, n: nat)
    requires stock.Valid() && waste.Valid() && waste.len + Min(n, stock.len) <= |waste.cards|
    ensures var r := DrawUpTo(stock, waste, n);
      r.1.Live() + Reversed(r.0.Live()) == waste.Live() + Reversed(stock.Live())
  {
    DrawUpToStock(stock, waste, n);
    DrawUpToWaste(stock, waste, n);
    OrderKept(waste.Live(), stock.Live(), Min(n, stock.len));
  }

  /** DealFromStock on a position is the deal loop on its stock and waste. */
  lemma ApplyDealFromStock(t: Tableau)
    requires t.Valid() && t.stock.len + t.waste.len <= MAX_WASTE
    ensures CanApply(t, Move(DealFromStock))
    ensures var r := DrawUpTo(t.stock, t.waste, 3);
      Apply(t, Move(DealFromStock)) == t.(stock := r.0, waste := r.1)
  {
  }

  /** One deal: the stock loses `Min(3, len)` cards and the waste-then-reversed-stock order is kept. */
  lemma DealOnceOrder(t: Tableau)
    requires t.Valid() && t.stock.len + t.waste.len <= MAX_WASTE
    ensures var t1 := Apply(t, Move(DealFromStock));
      && t1.waste.Live() + Reversed(t1.stock.Live()) == t.waste.Live() + Reversed(t.stock.Live())
      && t1.stock.len == t.stock.len - Min(3, t.stock.len)
  {
    ApplyDealFromStock(t);
    DrawKeepsOrder(t.stock, t.waste, 3);
  }

  /**
   * Dealing keeps the order of the cards: the waste followed by the stock
   * read from the top is the same sequence before and after, and each deal
   * takes three cards off the stock until it runs out.
   */
  lemma {:induction false} DealTimesOrder(t: Tableau, n: nat)
    requires t.Valid() && t.stock.len + t.waste.len <= MAX_WASTE
    ensures DealTimes(t, n).waste.Live() + Reversed(DealTimes(t, n).stock.Live())
         == t.waste.Live() + Reversed(t.stock.Live())
    ensures DealTimes(t, n).stock.len == if 3 * n >= t.stock.len then 0 else t.stock.len - 3 * n
    decreases n
  {
    if n > 0 {
      var t1 := DealOnce(t);
      var d := DealTimes(t1, n - 1);
      assert DealTimes(t, n) == d;
      DealTimesOrder(t1, n - 1);
      assert d.waste.Live() + Reversed(d.stock.Live()) == t1.waste.Live() + Reversed(t1.stock.Live());
      DealsLeft(t.stock.len, n);
      assert t1.stock.len == t.stock.len - Min(3, t.stock.len);
      assert d.stock.len == if 3 * (n - 1) >= t1.stock.len then 0 else t1.stock.len - 3 * (n - 1);
    }
  }

  /** Three cards a deal: one deal and `n - 1` more leave what `n` deals leave. */
  lemma DealsLeft(len: nat, n: nat)
    requires n > 0
    ensures var len1 := len - Min(3, len);
      (if 3 * (n - 1) >= len1 then 0 else len1 - 3 * (n - 1)) == (if 3 * n >= len then 0 else len - 3 * n)
  {
  }

  /** The redeal loop writes only the slots below the final stock size. */
  lemma {:induction false} RedealStorage(stock: Pile, waste: Pile)
    requires stock.Valid() && waste.Valid() && stock.len + waste.len <= |stock.cards|
    ensures RedealAll(stock, waste).0.cards[stock.len + waste.len..] == stock.cards[stock.len + waste.len..]
    decreases waste.len
  {
    if waste.len > 0 {
      var (c, rest) := waste.Pop();
      RedealStorage(stock.Push(c.value), rest);
    }
  }

  /**
   * Dealing through a stock onto an empty waste and then redealing gives the
   * starting stock back, slot for slot, with an empty waste; the redeal is
   * then a generated move whenever the stock was not empty.
   */
  lemma DealThroughThenRedeal(t: Tableau, n: nat)
    requires t.Valid() && t.stock.len + t.waste.len <= MAX_STOCK && t.waste.len == 0
    requires 3 * n >= t.stock.len
    ensures var d := DealTimes(t, n);
      && CanApply(d, Move(RedealStock))
      && (t.stock.len > 0 ==> IsLegal(d, Move(RedealStock)))
      && var r := Apply(d, Move(RedealStock));
         r.stock == t.stock && r.waste.len == 0 && r.columns == t.columns && r.foundations == t.foundations
  {
    var d := DealTimes(t, n);
    DealThroughReversesStock(t, n);
    RedealRestores(d, t.stock);
  }

  /** Dealing through an empty-waste stock leaves an empty stock and its cards reversed on the waste. */
  lemma DealThroughReversesStock(t: Tableau, n: nat)
    requires t.Valid() && t.stock.len + t.waste.len <= MAX_STOCK && t.waste.len == 0
    requires 3 * n >= t.stock.len
    ensures DealTimes(t, n).stock.len == 0
    ensures DealTimes(t, n).waste.Live() == Reversed(t.stock.Live())
  {
    var d := DealTimes(t, n);
    DealTimesOrder(t, n);
    assert d.stock.Live() == [];
    assert t.waste.Live() == [];
    assert Reversed(d.stock.Live()) == [];
    assert d.waste.Live() + [] == d.waste.Live();
  }

  /** RedealStock on a position is the redeal loop on its stock and waste. */
  lemma ApplyRedealStock(t: Tableau)
    requires t.Valid() && t.stock.len + t.waste.len <= MAX_STOCK
    ensures CanApply(t, Move(RedealStock))
    ensures var r := RedealAll(t.stock, t.waste);
      Apply(t, Move(RedealStock)) == t.(stock := r.0, waste := r.1)
  {
  }

  /** Redealing a pile's live cards, reversed, onto an empty stock with that pile's storage restores the pile. */
  lemma RedealRestoresPile(stock: Pile, waste: Pile, p: Pile)
    requires stock.Valid() && waste.Valid() && p.Valid() && stock.len == 0 && stock.cards == p.cards
    requires waste.Live() == Reversed(p.Live()) && p.len <= |p.cards|
    ensures RedealAll(stock, waste).0 == p
  {
    var r := RedealAll(stock, waste).0;
    ReversedReversed(p.Live());
    assert stock.Live() == [];
    assert r.Live() == p.Live();
    RedealStorage(stock, waste);
    forall i | 0 <= i < |p.cards|
      ensures r.cards[i] == p.cards[i]
    {
      if i < p.len {
        assert r.cards[i] == r.Live()[i];
        assert p.cards[i] == p.Live()[i];
      } else {
        assert r.cards[i] == r.cards[p.len..][i - p.len];
      }
    }
  }

  /** Redealing a waste that holds a pile's live cards reversed onto an empty stock with that pile's storage restores the pile. */
  lemma RedealRestores(d: Tableau, p: Pile)
    requires d.Valid() && d.stock.len == 0 && d.stock.cards == p.cards && p.Valid()
    requires d.waste.Live() == Reversed(p.Live()) && p.len <= MAX_STOCK
    ensures CanApply(d, Move(RedealStock))
    ensures var r := Apply(d, Move(RedealStock)); r.stock == p && r.waste.len == 0
  {
    ApplyRedealStock(d);
    RedealRestoresPile(d.stock, d.waste, p);
  }
}
